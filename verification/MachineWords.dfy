/**
 Page-frame numbers as 36-bit fields of 64-bit words: the binary expansion of a
 number and the number a field stands for, and that the two are inverse.
 */
module MachineWords {
  const FRAME_BITS: nat := 36

  function Pow2(k: nat): nat {
    if k == 0 then 1 else 2 * Pow2(k - 1)
  }

  /** The k lowest bits. */
  function Mask(k: nat): bv64 {
    if k == 0 then 0 else (Mask(k - 1) << 1) | 1
  }

  /** The binary expansion of f. */
  function Bits(f: nat): bv64 {
    if f == 0 then 0 else (Bits(f / 2) << 1) | (if f % 2 == 0 then 0 else 1)
  }

  /** The number in the k lowest bits of w. */
  function Value(w: bv64, k: nat): nat {
    if k == 0 then 0 else 2 * Value(w >> 1, k - 1) + (if w & 1 == 0 then 0 else 1)
  }

  lemma MaskShift(a: bv64, b: bv64)
    requires a & !b == 0
    ensures ((a << 1) | 1) & !((b << 1) | 1) == 0
  {
  }

  lemma MaskChain(a: bv64, b: bv64, c: bv64)
    requires a & !b == 0 && b & !c == 0
    ensures a & !c == 0
  {
  }

  lemma {:induction false} MaskNext(k: nat)
    ensures Mask(k) & !Mask(k + 1) == 0
  {
    if k > 0 {
      MaskNext(k - 1);
      MaskShift(Mask(k - 1), Mask(k));
    }
  }

  lemma {:induction false} MaskGrows(j: nat, k: nat)
    requires j <= k
    ensures Mask(j) & !Mask(k) == 0
    decreases k - j
  {
    if j < k {
      MaskNext(j);
      MaskGrows(j + 1, k);
      MaskChain(Mask(j), Mask(j + 1), Mask(k));
    }
  }

  lemma MaskOfFrame()
    ensures Mask(FRAME_BITS) == 0xF_FFFF_FFFF && Pow2(FRAME_BITS) == 0x10_0000_0000
  {
    assert Mask(12) == 0xFFF && Pow2(12) == 0x1000;
    assert Mask(24) == 0xFF_FFFF && Pow2(24) == 0x100_0000;
  }

  /** Appending a bit below a word whose top bit is clear can be undone. */
  lemma AppendBit(w: bv64, m: bv64, bit: bv64)
    requires w & !m == 0 && m & !0xF_FFFF_FFFF == 0 && bit <= 1
    ensures ((w << 1) | bit) >> 1 == w && ((w << 1) | bit) & 1 == bit
    ensures ((w << 1) | bit) & !((m << 1) | 1) == 0
  {
  }

  /** What AppendBit says of the functions above. */
  lemma ValueStep(w: bv64, half: bv64, m: bv64, bit: bv64, k: nat)
    requires k > 0 && m == Mask(k - 1) && m & !0xF_FFFF_FFFF == 0 && bit <= 1
    requires half & !m == 0 && w == (half << 1) | bit
    ensures Value(w, k) == 2 * Value(half, k - 1) + (if bit == 0 then 0 else 1) && w & !Mask(k) == 0
  {
    AppendBit(half, m, bit);
  }

  predicate Expands(f: nat, w: bv64, k: nat) {
    Value(w, k) == f && w & !Mask(k) == 0
  }

  lemma ExpandStep(h: nat, f: nat, half: bv64, w: bv64, bit: bv64, k: nat)
    requires 0 < k <= FRAME_BITS && Expands(h, half, k - 1) && w == (half << 1) | bit && bit <= 1
    requires f == 2 * h + (if bit == 0 then 0 else 1)
    ensures Expands(f, w, k)
  {
    MaskInFrame(k - 1);
    ValueStep(w, half, Mask(k - 1), bit, k);
  }

  lemma BitsStep(f: nat, bit: bv64)
    requires f > 0 && bit == if f % 2 == 0 then 0 else 1
    ensures Bits(f) == (Bits(f / 2) << 1) | bit && bit <= 1
    ensures f == 2 * (f / 2) + (if bit == 0 then 0 else 1)
  {
  }

  /** A number below 2^k is the value of its expansion, which fits k bits. */
  lemma {:induction false} ValueOfBits(f: nat, k: nat)
    requires f < Pow2(k) && k <= FRAME_BITS
    ensures Expands(f, Bits(f), k)
  {
    if f == 0 {
      ValueOfZero(k);
    } else {
      var bit: bv64 := if f % 2 == 0 then 0 else 1;
      var h := f / 2;
      ValueOfBits(h, k - 1);
      BitsStep(f, bit);
      ExpandStep(h, f, Bits(h), Bits(f), bit, k);
    }
  }

  lemma MaskInFrame(k: nat)
    requires k <= FRAME_BITS
    ensures Mask(k) & !0xF_FFFF_FFFF == 0
  {
    MaskGrows(k, FRAME_BITS);
    MaskOfFrame();
  }

  lemma {:induction false} ValueOfZero(k: nat)
    ensures Expands(0, 0, k)
  {
    if k > 0 {
      ValueOfZero(k - 1);
    }
  }

  lemma {:induction false} ValueBound(w: bv64, k: nat)
    ensures Value(w, k) < Pow2(k)
  {
    if k > 0 {
      ValueBound(w >> 1, k - 1);
    }
  }
}
