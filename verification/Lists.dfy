/**
 Doubly linked lists of objects (include/lib/list.h) as sequences of object
 numbers without repetition, and lists kept in the order of a key.
 */
module Lists {
  import opened Options

  predicate NoDup(q: seq<nat>) {
    forall i, j :: 0 <= i < j < |q| ==> q[i] != q[j]
  }

  /** list_del of node t. */
  function Without(q: seq<nat>, t: nat): (r: seq<nat>)
    ensures |r| <= |q|
    ensures forall x: nat :: x in r <==> x in q && x != t
  {
    if q == [] then []
    else if q[0] == t then Without(q[1..], t)
    else [q[0]] + Without(q[1..], t)
  }

  /** list_add_node in front of the node at position i, or at the tail. */
  function InsertAt(q: seq<nat>, i: nat, t: nat): (r: seq<nat>)
    requires i <= |q|
    ensures |r| == |q| + 1
    ensures forall x: nat :: x in r <==> x in q || x == t
  {
    var r := q[..i] + [t] + q[i..];
    assert r[i] == t && forall x :: x in q <==> x in q[..i] || x in q[i..];
    r
  }

  function IndexOf(q: seq<nat>, t: nat): (i: nat)
    requires t in q
    ensures i < |q| && q[i] == t && t !in q[..i]
  {
    if q[0] == t then 0 else 1 + IndexOf(q[1..], t)
  }

  /** The node after t: what list_for_each_safe saves before the loop body runs. */
  function Next(q: seq<nat>, t: nat): Option<nat>
    requires t in q
  {
    var i := IndexOf(q, t);
    if i + 1 < |q| then Some(q[i + 1]) else None
  }

  function First(q: seq<nat>): Option<nat> {
    if q == [] then None else Some(q[0])
  }

  lemma {:induction false} WithoutAbsent(q: seq<nat>, t: nat)
    requires t !in q
    ensures Without(q, t) == q
  {
    if q != [] {
      WithoutAbsent(q[1..], t);
    }
  }

  lemma {:induction false} WithoutPlace(q: seq<nat>, i: nat)
    requires NoDup(q) && i < |q|
    ensures Without(q, q[i]) == q[..i] + q[i + 1..]
  {
    if i == 0 {
      WithoutAbsent(q[1..], q[0]);
    } else {
      WithoutPlace(q[1..], i - 1);
      assert q[1..][..i - 1] == q[1..i];
    }
  }

  lemma WithoutNoDup(q: seq<nat>, t: nat)
    requires NoDup(q)
    ensures NoDup(Without(q, t))
  {
    if t in q {
      WithoutPlace(q, IndexOf(q, t));
    } else {
      WithoutAbsent(q, t);
    }
  }

  lemma InsertNoDup(q: seq<nat>, i: nat, t: nat)
    requires NoDup(q) && t !in q && i <= |q|
    ensures NoDup(InsertAt(q, i, t))
  {
  }

  // ---------------------------------------------------------------------
  // Order
  // ---------------------------------------------------------------------

  function Key(keys: seq<int>, t: nat): int {
    if t < |keys| then keys[t] else 0
  }

  predicate Sorted(keys: seq<int>, q: seq<nat>) {
    forall i, j :: 0 <= i < j < |q| ==> Key(keys, q[i]) <= Key(keys, q[j])
  }

  /** In order, except that node c may be too far in front. */
  predicate SortedBut(keys: seq<int>, q: seq<nat>, c: nat) {
    forall i, j :: 0 <= i < j < |q| && q[i] != c ==> Key(keys, q[i]) <= Key(keys, q[j])
  }

  lemma WithoutSortedBut(keys: seq<int>, q: seq<nat>, c: nat, t: nat)
    requires NoDup(q) && SortedBut(keys, q, c)
    ensures SortedBut(keys, Without(q, t), c)
    ensures t == c ==> Sorted(keys, Without(q, t))
  {
    if t in q {
      WithoutPlace(q, IndexOf(q, t));
    } else {
      WithoutAbsent(q, t);
    }
  }

  lemma WithoutSorted(keys: seq<int>, q: seq<nat>, t: nat)
    requires NoDup(q) && Sorted(keys, q)
    ensures Sorted(keys, Without(q, t))
  {
    if t in q {
      WithoutPlace(q, IndexOf(q, t));
    } else {
      WithoutAbsent(q, t);
    }
  }

  /** A position where t may be inserted into an ordered list. */
  predicate Fits(keys: seq<int>, q: seq<nat>, i: nat, t: nat) {
    && i <= |q|
    && (forall j :: 0 <= j < i ==> Key(keys, q[j]) <= Key(keys, t))
    && (forall j :: i <= j < |q| ==> Key(keys, t) <= Key(keys, q[j]))
  }

  /** Where an ordered insertion puts node t: in front of the first larger key. */
  function InsertPos(keys: seq<int>, q: seq<nat>, t: nat): (i: nat)
    ensures i <= |q|
    ensures forall j :: 0 <= j < i ==> Key(keys, q[j]) <= Key(keys, t)
    ensures i < |q| ==> Key(keys, t) < Key(keys, q[i])
  {
    if q == [] || Key(keys, t) < Key(keys, q[0]) then 0 else 1 + InsertPos(keys, q[1..], t)
  }

  lemma InsertSorted(keys: seq<int>, q: seq<nat>, i: nat, t: nat)
    requires Sorted(keys, q) && Fits(keys, q, i, t)
    ensures Sorted(keys, InsertAt(q, i, t))
  {
  }

  lemma AppendSortedBut(keys: seq<int>, q: seq<nat>, c: nat, t: nat)
    requires SortedBut(keys, q, c) && forall j :: 0 <= j < |q| ==> Key(keys, q[j]) <= Key(keys, t)
    ensures SortedBut(keys, InsertAt(q, |q|, t), c)
  {
  }

  /** Order depends only on the keys of the listed nodes. */
  lemma SortedSame(keys: seq<int>, keys': seq<int>, q: seq<nat>)
    requires Sorted(keys, q) && forall x :: x in q ==> Key(keys', x) == Key(keys, x)
    ensures Sorted(keys', q)
  {
  }

  lemma SortedButSame(keys: seq<int>, keys': seq<int>, q: seq<nat>, c: nat)
    requires SortedBut(keys, q, c) && forall x :: x in q ==> Key(keys', x) == Key(keys, x)
    ensures SortedBut(keys', q, c)
  {
  }

  /** The first node of an ordered list has the least key. */
  lemma FirstIsLeast(keys: seq<int>, q: seq<nat>, t: nat)
    requires Sorted(keys, q) && t in q
    ensures Key(keys, q[0]) <= Key(keys, t)
  {
    var i := IndexOf(q, t);
  }
}
