/**
 The bitmap pool that page-table pages come from (struct page_pool,
 include/common/mmu.h; alloc_page and free_page, core/mmu.c).

 A 64-bit bitmap word is modelled by its 64 bits, least significant first.
 */
module PagePool {
  import opened Division
  import opened PageTableModel

  const WORD_BITS: nat := 64

  type Word = w: seq<bool> | |w| == WORD_BITS witness seq(WORD_BITS, _ => false)

  predicate IsFull(w: Word) {
    forall b :: 0 <= b < WORD_BITS ==> w[b]
  }

  /** Find the first zero bit of a word that has one. */
  method FirstZero(w: Word) returns (bit: nat)
    requires !IsFull(w)
    ensures bit < WORD_BITS && !w[bit]
    ensures forall b :: 0 <= b < bit ==> w[b]
  {
    bit := 0;
    while w[bit]
      invariant bit < WORD_BITS
      invariant forall b :: 0 <= b < bit ==> w[b]
      decreases WORD_BITS - bit
    {
      bit := bit + 1;
    }
  }

  /** The k-th word that alloc_page looks at. */
  function Probe(hint: nat, k: nat, size: nat): (idx: nat)
    requires size > 0
    ensures idx < size
  {
    (hint + k) % size
  }

  /** Stepping through `size` words from any hint, modulo `size`, meets every word. */
  lemma WrapMeetsAll(hint: nat, size: nat, idx: nat) returns (k: nat)
    requires idx < size
    ensures k < size && Probe(hint, k, size) == idx
  {
    var h := hint % size;
    k := if h <= idx then idx - h else idx + size - h;
    assert hint == (hint / size) * size + h;
    if h <= idx {
      DivUnique(hint / size, idx, size);
    } else {
      assert hint + k == (hint / size + 1) * size + idx;
      DivUnique(hint / size + 1, idx, size);
    }
  }

  predicate IsMarked(bitmap: seq<Word>, page: nat) {
    page < WORD_BITS * |bitmap| && bitmap[page / WORD_BITS][page % WORD_BITS]
  }

  /** The bitmap covers `pages` pages and marks exactly those that the tree uses. */
  ghost predicate PoolOk(bitmap: seq<Word>, nd: Nodes, pages: nat) {
    && |bitmap| > 0 && WORD_BITS * |bitmap| == pages
    && forall p: nat {:trigger IsMarked(bitmap, p)} :: IsMarked(bitmap, p) <==> p in nd
  }

  /** Writing one bit changes the mark of exactly its page. */
  lemma WriteBit(bitmap: seq<Word>, idx: nat, bit: nat, value: bool)
    requires idx < |bitmap| && bit < WORD_BITS
    ensures var page := idx * WORD_BITS + bit;
            var bitmap' := bitmap[idx := bitmap[idx][bit := value]];
            && page < WORD_BITS * |bitmap|
            && IsMarked(bitmap, page) == bitmap[idx][bit]
            && forall x: nat {:trigger IsMarked(bitmap', x)} ::
                 IsMarked(bitmap', x) == if x == page then value else IsMarked(bitmap, x)
  {
    var page := idx * WORD_BITS + bit;
    var bitmap' := bitmap[idx := bitmap[idx][bit := value]];
    forall x: nat
      ensures IsMarked(bitmap', x) == if x == page then value else IsMarked(bitmap, x)
    {
      assert x == (x / WORD_BITS) * WORD_BITS + x % WORD_BITS;
    }
  }
}
