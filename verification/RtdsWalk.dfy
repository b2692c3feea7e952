/**
 The two list_for_each_safe loops of rtds_refresh_queues: walking a queue while
 its nodes are removed and reinserted visits what a walk over a snapshot of the
 queue would visit.
 */
module RtdsWalk {
  import opened Options
  import opened Periods
  import opened Lists
  import opened Threads
  import opened RtdsModel
  import opened RtdsInvariant

  // ---------------------------------------------------------------------
  // The ready queue
  // ---------------------------------------------------------------------

  predicate Expired(keys: seq<int>, t: nat, now: nat) {
    t < |keys| && keys[t] <= now
  }

  predicate Unexpired(keys: seq<int>, t: nat, now: nat) {
    t < |keys| && now < keys[t]
  }

  /** The first e nodes of the queue and of the snapshot's rest are the same and expired; no other node is. */
  ghost predicate Lined(keys: seq<int>, q: seq<nat>, rest: seq<nat>, e: nat, now: nat) {
    && e <= |rest| && e <= |q|
    && (forall i :: 0 <= i < e ==> q[i] == rest[i] && Expired(keys, q[i], now))
    && (forall i :: e <= i < |q| ==> Unexpired(keys, q[i], now))
    && (forall i :: e <= i < |rest| ==> Unexpired(keys, rest[i], now))
  }

  /** In EDF order the expired servers come first. */
  lemma {:induction false} LinedStart(keys: seq<int>, q: seq<nat>, e: nat, now: nat) returns (k: nat)
    requires Sorted(keys, q) && e <= |q| && forall i :: 0 <= i < |q| ==> q[i] < |keys|
    requires forall i :: 0 <= i < e ==> Expired(keys, q[i], now)
    ensures Lined(keys, q, q, k, now)
    decreases |q| - e
  {
    if e < |q| && Expired(keys, q[e], now) {
      k := LinedStart(keys, q, e + 1, now);
    } else {
      k := e;
      forall i | e <= i < |q| ensures Unexpired(keys, q[i], now) {
        assert Key(keys, q[e]) <= Key(keys, q[i]);
      }
    }
  }

  lemma PosBehind(keys: seq<int>, q: seq<nat>, t: nat, k: nat)
    requires k <= |q| && forall j :: 0 <= j < k ==> Key(keys, q[j]) <= Key(keys, t)
    ensures InsertPos(keys, q, t) >= k
  {
  }

  /** The reinserted server goes behind the expired ones that are still to be visited. */
  lemma LinedStep(keys: seq<int>, keys': seq<int>, q: seq<nat>, q': seq<nat>, rest: seq<nat>, e: nat, now: nat, i: nat)
    requires NoDup(q) && Lined(keys, q, rest, e, now) && e > 0
    requires |keys'| == |keys| && keys' == keys[q[0] := keys'[q[0]]] && now < keys'[q[0]]
    requires i == InsertPos(keys', q[1..], q[0]) && q' == InsertAt(q[1..], i, q[0])
    ensures Lined(keys', q', rest[1..], e - 1, now)
    ensures e > 1 ==> q'[0] == q[1]
  {
    forall j | 0 <= j < e - 1 ensures Expired(keys', q[1..][j], now) && Key(keys', q[1..][j]) <= Key(keys', q[0]) {
      assert Expired(keys, q[j + 1], now);
    }
    PosBehind(keys', q[1..], q[0], e - 1);
    LinedPlaces(keys, keys', q, q', rest, e, now, i);
  }

  lemma LinedPlaces(keys: seq<int>, keys': seq<int>, q: seq<nat>, q': seq<nat>, rest: seq<nat>, e: nat, now: nat,
                    i: nat)
    requires NoDup(q) && Lined(keys, q, rest, e, now) && e > 0
    requires |keys'| == |keys| && keys' == keys[q[0] := keys'[q[0]]] && now < keys'[q[0]]
    requires e - 1 <= i < |q| && q' == InsertAt(q[1..], i, q[0])
    ensures Lined(keys', q', rest[1..], e - 1, now)
    ensures e > 1 ==> q'[0] == q[1]
  {
    forall j | 0 <= j < |q'| ensures q'[j] == if j < i then q[j + 1] else if j == i then q[0] else q[j] {
    }
    forall j | 0 <= j < e - 1 ensures q'[j] == rest[1..][j] && Expired(keys', q'[j], now) {
      assert q[j + 1] == rest[j + 1];
    }
    forall j | e - 1 <= j < |rest[1..]| ensures Unexpired(keys', rest[1..][j], now) {
      assert Unexpired(keys, rest[j + 1], now);
    }
  }

  lemma {:induction false} NothingExpired(s: State, rest: seq<nat>, now: nat)
    requires s.period > 0 && Known(s, rest) && forall i :: 0 <= i < |rest| ==>
               Unexpired(Deadlines(s.threads), rest[i], now)
    ensures RefreshReadyAll(s, rest, now) == s
    decreases |rest|
  {
    if rest != [] {
      assert rest[0] in rest && forall x :: x in rest[1..] ==> x in rest;
      assert Unexpired(Deadlines(s.threads), rest[0], now);
      NothingExpired(s, rest[1..], now);
    }
  }

  lemma RefreshExpired(s: State, t: nat, now: nat, clock: nat, a: State, r: State)
    requires Inv(s, clock) && Settled(s) && now <= clock && t < |s.threads| && Data(s, t).queue == Ready
    requires a == Advance(s, t, now) && r == RefreshReady(s, t, now) && Data(s, t).deadline <= now
    ensures r == ReadyInsert(a, t) && now < Data(a, t).deadline
  {
    assert SettledAt(s, t);
    RefreshReadyIs(s, t, clock, now);
    assert ThreadOk(s.period, clock, s.curr, t, s.threads[t]);
    ReplenishOk(s.period, clock, now, Data(s, t));
  }

  lemma ReadyInsertShape(a: State, t: nat, keys: seq<int>)
    requires t < |a.threads| && keys == Deadlines(a.threads)
    ensures Deadlines(ReadyInsert(a, t).threads) == keys
    ensures ReadyInsert(a, t).ready == InsertAt(Without(a.ready, t), InsertPos(keys, Without(a.ready, t), t), t)
  {
    SameDeadlines(a.threads, QueueRemove(a, t).threads);
    SameDeadlines(a.threads, ReadyInsert(a, t).threads);
  }

  lemma AdvanceDeadlines(s: State, t: nat, now: nat, a: State)
    requires t < |s.threads| && s.period > 0 && a == Advance(s, t, now)
    ensures Deadlines(a.threads) == Deadlines(s.threads)[t := Data(a, t).deadline] && a.ready == s.ready
  {
  }

  lemma WithoutFirst(q: seq<nat>, tail: seq<nat>)
    requires NoDup(q) && q != [] && tail == q[1..]
    ensures Without(q, q[0]) == tail
  {
    WithoutPlace(q, 0);
  }

  /** What refreshing the expired first server does to the ready queue. */
  lemma FirstRefreshed(s: State, t: nat, now: nat, clock: nat, a: State, tail: seq<nat>, r: State)
    requires Inv(s, clock) && Settled(s) && now <= clock && s.ready != [] && t == s.ready[0] && tail == s.ready[1..]
    requires t < |s.threads| && a == Advance(s, t, now) && r == RefreshReady(s, t, now) && Data(s, t).deadline <= now
    ensures Deadlines(r.threads) == Deadlines(a.threads) && now < Data(a, t).deadline
    ensures r.ready == InsertAt(tail, InsertPos(Deadlines(a.threads), tail, t), t)
  {
    assert t in s.ready;
    RefreshExpired(s, t, now, clock, a, r);
    ReadyInsertShape(a, t, Deadlines(a.threads));
    WithoutFirst(s.ready, tail);
  }

  ghost predicate Walking(s: State, rest: seq<nat>, e: nat, now: nat) {
    Known(s, rest) && Lined(Deadlines(s.threads), s.ready, rest, e, now)
  }

  /** While a visited server is expired, part of the snapshot is left. */
  lemma ExpiredIsLeft(s: State, rest: seq<nat>, e: nat, now: nat, t: nat)
    requires Walking(s, rest, e, now) && t in s.ready && t < |s.threads| && Data(s, t).deadline <= now
    ensures e > 0
  {
    var i := IndexOf(s.ready, t);
    assert e == 0 ==> Unexpired(Deadlines(s.threads), s.ready[i], now);
  }

  lemma NextIsFurther(q: seq<nat>, t: nat)
    requires NoDup(q) && t in q && Next(q, t).Some?
    ensures Next(q, t).value in q && IndexOf(q, Next(q, t).value) == IndexOf(q, t) + 1
  {
  }

  /** One iteration of the loop over the ready queue, at an expired server. */
  lemma WalkStep(s: State, rest: seq<nat>, e: nat, now: nat, clock: nat, r: State)
    requires Inv(s, clock) && Settled(s) && now <= clock && Walking(s, rest, e, now) && e > 0
    requires s.ready[0] < |s.threads| && r == RefreshReady(s, s.ready[0], now)
    ensures Progress(s, r, clock, now) && Walking(r, rest[1..], e - 1, now)
    ensures RefreshReadyAll(r, rest[1..], now) == RefreshReadyAll(s, rest, now)
    ensures e > 1 ==> |r.ready| > 0 && r.ready[0] == s.ready[1]
    ensures forall x :: x in s.ready ==> x in r.ready
  {
    var t := s.ready[0];
    assert rest[0] == t && t in s.ready && t in rest && forall x :: x in rest[1..] ==> x in rest;
    assert Expired(Deadlines(s.threads), t, now);
    var a := Advance(s, t, now);
    AdvanceDeadlines(s, t, now, a);
    FirstRefreshed(s, t, now, clock, a, s.ready[1..], r);
    LinedStep(Deadlines(s.threads), Deadlines(a.threads), s.ready, r.ready, rest, e, now,
              InsertPos(Deadlines(a.threads), s.ready[1..], t));
    ReadyStep(s, t, clock, now, r);
  }

  // ---------------------------------------------------------------------
  // The depleted queue
  // ---------------------------------------------------------------------

  /** What is left of the snapshot is the tail of the queue. */
  ghost predicate Trailing(q: seq<nat>, rest: seq<nat>) {
    |rest| <= |q| && q[|q| - |rest|..] == rest
  }

  lemma TrailingStep(q: seq<nat>, rest: seq<nat>)
    requires NoDup(q) && Trailing(q, rest) && rest != []
    ensures rest[0] in q && Next(q, rest[0]) == First(rest[1..])
    ensures Trailing(q, rest[1..]) && Trailing(Without(q, rest[0]), rest[1..])
  {
    var k := |q| - |rest|;
    assert forall i :: 0 <= i < |rest| ==> rest[i] == q[k + i];
    assert q[k] == rest[0];
    assert IndexOf(q, rest[0]) == k;
    WithoutPlace(q, k);
  }

  lemma DepletedQueue(s: State, t: nat, now: nat, r: State)
    requires s.period > 0 && t < |s.threads| && Data(s, t).queue == Depleted && Data(s, t).remaining == 0
    requires Active(s, t)
    requires r == RefreshThread(s, t, now)
    ensures r.depleted == s.depleted || r.depleted == Without(s.depleted, t)
  {
  }

  /** One iteration of the loop over the depleted queue. */
  lemma DepletedStep(s: State, rest: seq<nat>, now: nat, clock: nat, r: State)
    requires Inv(s, clock) && Settled(s) && now <= clock && Known(s, rest) && Trailing(s.depleted, rest) && rest != []
    requires rest[0] < |s.threads| && r == RefreshThread(s, rest[0], now)
    ensures Progress(s, r, clock, now) && Known(r, rest[1..]) && Trailing(r.depleted, rest[1..])
    ensures RefreshDepletedAll(r, rest[1..], now) == RefreshDepletedAll(s, rest, now)
  {
    assert rest[0] in rest && forall x :: x in rest[1..] ==> x in rest;
    TrailingStep(s.depleted, rest);
    assert SettledAt(s, rest[0]);
    DepletedQueue(s, rest[0], now, r);
    QueuedStep(s, rest[0], clock, now, r);
  }
}
