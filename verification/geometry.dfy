/** Span and slot arithmetic: 64 KiB spans, each tiled into equal slots of one size class, so that the address
    of a slot gives back its span and its bit, and a slot its address. */
module Geometry {
  import opened Words

  const SPAN_BYTES: nat := 65536
  const WORDS_PER_SPAN: nat := 128

  /** The span table's class of large runs and retired spans. */
  const LARGE_CLASS: nat := 65534

  /** What is assumed of an object size: a positive multiple of the 8-byte granularity. */
  predicate ClassSize(osz: nat) {
    osz > 0 && osz % 8 == 0
  }

  /** `(SPAN_BYTES / osz).max(1)`: as many slots as fit; a class larger than a span has one object per span group. */
  function SlotsPerSpan(osz: nat): (n: nat)
    requires osz > 0
    ensures n >= 1
  {
    if SPAN_BYTES / osz == 0 then 1 else SPAN_BYTES / osz
  }

  /** The slots fit, and one more would not. */
  lemma MostSlots(osz: nat)
    requires osz > 0
    ensures osz <= SPAN_BYTES ==> SlotsPerSpan(osz) * osz <= SPAN_BYTES < (SlotsPerSpan(osz) + 1) * osz
    ensures osz > SPAN_BYTES ==> SlotsPerSpan(osz) == 1
  {
    QuotientBound(SPAN_BYTES / osz, osz);
    if osz > SPAN_BYTES { DivisionIsUnique(SPAN_BYTES, osz, 0, SPAN_BYTES); }
  }

  /** The fewest whole spans that hold one object of the class. */
  function GroupSpans(osz: nat): (n: nat)
    requires osz > 0
    ensures n >= 1 && (n - 1) * SPAN_BYTES < osz <= n * SPAN_BYTES && (osz <= SPAN_BYTES <==> n == 1)
  {
    (osz + SPAN_BYTES - 1) / SPAN_BYTES
  }

  function SpanBase(base: nat, span: nat): nat {
    base + span * SPAN_BYTES
  }

  function SpanOf(base: nat, ptr: nat): nat
    requires base <= ptr
  {
    (ptr - base) / SPAN_BYTES
  }

  function Address(base: nat, span: nat, slot: nat, osz: nat): nat {
    SpanBase(base, span) + slot * osz
  }

  /** `(span, bitmap word, bit)` of the object of size `osz` at `ptr`. */
  function Locate(base: nat, ptr: nat, osz: nat): (nat, nat, nat)
    requires base <= ptr && osz > 0
  {
    var span := SpanOf(base, ptr);
    var slot := (ptr - SpanBase(base, span)) / osz;
    (span, slot / 64, slot % 64)
  }

  // --- nonlinear steps ------------------------------------------------------

  lemma QuotientBound(q: nat, osz: nat)
    requires osz > 0 && q <= SPAN_BYTES / osz
    ensures q * osz <= SPAN_BYTES && SPAN_BYTES < (SPAN_BYTES / osz + 1) * osz
  {
    assert SPAN_BYTES == SPAN_BYTES / osz * osz + SPAN_BYTES % osz;
    assert (SPAN_BYTES / osz + 1) * osz == SPAN_BYTES / osz * osz + osz;
  }

  lemma QuotientOf(slot: nat, osz: nat)
    requires osz > 0
    ensures (slot * osz) / osz == slot
  {
    DivisionIsUnique(slot * osz, osz, slot, 0);
  }

  lemma DivisionIsUnique(n: nat, d: nat, q: nat, r: nat)
    requires d > 0 && r < d && n == q * d + r
    ensures n / d == q
  {
    var q2, r2 := n / d, n % d;
    assert n == q2 * d + r2;
    assert (q2 + 1) * d == q2 * d + d && (q + 1) * d == q * d + d;
  }

  /** A slot lies inside its span; for a class above the span size, inside its group. */
  lemma SlotInside(slot: nat, osz: nat)
    requires osz > 0 && slot < SlotsPerSpan(osz)
    ensures osz <= SPAN_BYTES ==> slot * osz + osz <= SPAN_BYTES
    ensures osz > SPAN_BYTES ==> slot == 0
    ensures slot * osz < SPAN_BYTES && slot * osz + osz <= GroupSpans(osz) * SPAN_BYTES
  {
    if osz <= SPAN_BYTES {
      QuotientBound(slot + 1, osz);
      assert (slot + 1) * osz == slot * osz + osz;
    } else {
      DivisionIsUnique(SPAN_BYTES, osz, 0, SPAN_BYTES);
    }
  }

  // --- the tiling is a bijection ----------------------------------------------

  /** `locate` recovers span and slot from the address of any tiled object. */
  lemma LocateInverts(base: nat, span: nat, slot: nat, osz: nat)
    requires osz > 0 && slot < SlotsPerSpan(osz)
    ensures Locate(base, Address(base, span, slot, osz), osz) == (span, slot / 64, slot % 64)
    ensures SpanOf(base, Address(base, span, slot, osz)) == span
  {
    SlotInside(slot, osz);
    DivisionIsUnique(span * SPAN_BYTES + slot * osz, SPAN_BYTES, span, slot * osz);
    QuotientOf(slot, osz);
  }

  /** Every slot has its bit in the words a take scans, and those fit the span's 128 words. */
  lemma WordsCoverSlots(slot: nat, osz: nat)
    requires ClassSize(osz) && slot < SlotsPerSpan(osz)
    ensures slot / 64 < (SlotsPerSpan(osz) + 63) / 64 <= WORDS_PER_SPAN
  {
    if osz <= SPAN_BYTES {
      QuotientBound(SPAN_BYTES / osz, osz);
    } else {
      DivisionIsUnique(SPAN_BYTES, osz, 0, SPAN_BYTES);
    }
  }

  ghost predicate Apart(a: nat, alen: nat, b: nat, blen: nat) {
    a + alen <= b || b + blen <= a
  }

  /** Distinct slots of one span do not overlap. */
  lemma SlotsApart(base: nat, span: nat, slot: nat, slot2: nat, osz: nat)
    requires osz > 0 && slot != slot2
    ensures Apart(Address(base, span, slot, osz), osz, Address(base, span, slot2, osz), osz)
  {
    if slot < slot2 {
      assert (slot + 1) * osz == slot * osz + osz;
    } else {
      assert (slot2 + 1) * osz == slot2 * osz + osz;
    }
  }

  /** The bytes of a slot lie inside the spans of its group. */
  lemma ObjectInGroup(base: nat, span: nat, slot: nat, osz: nat)
    requires osz > 0 && slot < SlotsPerSpan(osz)
    ensures SpanBase(base, span) <= Address(base, span, slot, osz)
    ensures Address(base, span, slot, osz) + osz <= SpanBase(base, span + GroupSpans(osz))
  {
    SlotInside(slot, osz);
  }

  // --- the bits a carve sets ---------------------------------------------------

  /** Word `w` of a span of `n` slots: one bit for each slot it covers. */
  function SlotWord(n: nat, w: nat): (t: Word)
    ensures forall b: nat :: b in t <==> b < BITS && w * BITS + b < n
  {
    set b: nat | b < BITS && IsSlot(n, w, b)
  }

  predicate IsSlot(n: nat, w: nat, b: nat) {
    w * BITS + b < n
  }

  lemma SlotWordCount(n: nat, w: nat)
    ensures |SlotWord(n, w)| == if (w + 1) * BITS <= n then BITS else if w * BITS <= n then n - w * BITS else 0
  {
    var k := if (w + 1) * BITS <= n then BITS else if w * BITS <= n then n - w * BITS else 0;
    assert SlotWord(n, w) == Below(k);
  }
}
