/**
 Multiplication, quotient and remainder by repeated addition and subtraction,
 equal to `*`, `/` and `%`.  The page-table model multiplies and divides by a
 span that depends on the level, and the schedulers by periods and ratios; written
 this way their goals stay linear.
 */
module Division {

  function Times(i: nat, s: nat): nat {
    if i == 0 then 0 else s + Times(i - 1, s)
  }

  function Quot(v: nat, s: nat): nat
    requires s > 0
  {
    if v < s then 0 else 1 + Quot(v - s, s)
  }

  function Rem(v: nat, s: nat): (r: nat)
    requires s > 0
    ensures r < s
  {
    if v < s then v else Rem(v - s, s)
  }

  lemma {:induction false} MulOrder(a: int, b: int, s: int)
    requires a < b && s > 0
    ensures a * s + s <= b * s
    decreases b - a
  {
    if a + 1 < b {
      MulOrder(a + 1, b, s);
    }
  }

  lemma MulMono(a: int, b: int, c: nat)
    requires a <= b
    ensures a * c <= b * c
  {
  }

  lemma MulSub(a: int, b: int, c: int)
    ensures (a - b) * c == a * c - b * c
  {
  }

  lemma MulAdd(a: int, b: int, c: int)
    ensures (a + b) * c == a * c + b * c
  {
  }

  lemma MulSwap(a: int, b: int, c: int)
    ensures (a * b) * c == (a * c) * b
  {
  }

  lemma DivUnique(q: nat, r: nat, s: nat)
    requires r < s
    ensures (q * s + r) / s == q && (q * s + r) % s == r
  {
    var n := q * s + r;
    var d, m := n / s, n % s;
    assert n == d * s + m;
    if d < q {
      MulOrder(d, q, s);
    } else if q < d {
      MulOrder(q, d, s);
    }
  }

  lemma {:induction false} TimesIsMul(i: nat, s: nat)
    ensures Times(i, s) == i * s
  {
    if i > 0 {
      TimesIsMul(i - 1, s);
    }
  }

  lemma {:induction false} QuotIsDiv(v: nat, s: nat)
    requires s > 0
    ensures Quot(v, s) == v / s && Rem(v, s) == v % s
  {
    if v >= s {
      QuotIsDiv(v - s, s);
      var q, r := (v - s) / s, (v - s) % s;
      assert v == (q + 1) * s + r;
      DivUnique(q + 1, r, s);
    } else {
      DivUnique(0, v, s);
    }
  }

  /** A number determines its quotient and remainder. */
  lemma QuotUnique(q: nat, r: nat, s: nat)
    requires r < s
    ensures Quot(Times(q, s) + r, s) == q && Rem(Times(q, s) + r, s) == r
  {
    TimesIsMul(q, s);
    QuotIsDiv(q * s + r, s);
    DivUnique(q, r, s);
  }

  lemma QuotRem(v: nat, s: nat)
    requires s > 0
    ensures v == Times(Quot(v, s), s) + Rem(v, s)
  {
    QuotIsDiv(v, s);
    TimesIsMul(v / s, s);
  }

  lemma TimesOrder(a: nat, b: nat, s: nat)
    requires a < b
    ensures Times(a, s) + s <= Times(b, s)
  {
    TimesIsMul(a, s);
    TimesIsMul(b, s);
    if s > 0 {
      MulOrder(a, b, s);
    }
  }

  lemma TimesAdd(a: nat, b: nat, s: nat)
    ensures Times(a + b, s) == Times(a, s) + Times(b, s)
  {
    TimesIsMul(a, s);
    TimesIsMul(b, s);
    TimesIsMul(a + b, s);
  }

  /** Rem(v + d) depends only on Rem(v). */
  lemma RemOfSum(v: nat, d: nat, s: nat)
    requires s > 0
    ensures Rem(v + d, s) == Rem(Rem(v, s) + d, s)
  {
    var q, x := Quot(v, s), Rem(v, s) + d;
    QuotRem(v, s);
    QuotRem(x, s);
    TimesAdd(q, Quot(x, s), s);
    QuotUnique(q + Quot(x, s), Rem(x, s), s);
  }

  lemma RemShift(v: nat, w: nat, d: nat, s: nat)
    requires s > 0 && Rem(v, s) == Rem(w, s)
    ensures Rem(v + d, s) == Rem(w + d, s)
  {
    RemOfSum(v, d, s);
    RemOfSum(w, d, s);
  }

  lemma {:induction false} QuotOrder(a: nat, b: nat, s: nat)
    requires s > 0 && a <= b
    ensures Quot(a, s) <= Quot(b, s)
  {
    if a >= s {
      QuotOrder(a - s, b - s, s);
    }
  }

  lemma {:induction false} TimesTimes(hi: nat, n: nat, i: nat, s: nat)
    ensures Times(hi, Times(n, s)) + Times(i, s) == Times(Times(hi, n) + i, s)
  {
    if hi > 0 {
      TimesTimes(hi - 1, n, i, s);
      TimesAdd(n, Times(hi - 1, n) + i, s);
    }
  }

  /** Dividing by s and by n * s: the quotient by n * s and the digit below it. */
  lemma Digits(n: nat, s: nat, v: nat)
    requires n > 0 && s > 0
    ensures Times(n, s) > 0
    ensures Rem(v, Times(n, s)) == Times(Quot(v, s) % n, s) + Rem(v, s)
    ensures Quot(v, Times(n, s)) == Quot(v, s) / n
  {
    var q := Quot(v, s);
    var hi, i := Quot(q, n), Rem(q, n);
    QuotRem(q, n);
    QuotIsDiv(q, n);
    QuotRem(v, s);
    TimesTimes(hi, n, i, s);
    TimesOrder(i, n, s);
    QuotUnique(hi, Times(i, s) + Rem(v, s), Times(n, s));
  }
}
