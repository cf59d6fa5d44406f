/** Taking free objects off a cell's active spans and tiling fresh ones, under the cell's lock while any
    other thread deposits. */
module Central {
  import opened Words
  import opened Geometry
  import opened Bitmaps
  import SpanPools

  /** Slots a span has bits for. */
  const SPAN_SLOTS: nat := WORDS_PER_SPAN * BITS

  function AddressOf(base: nat, osz: nat, g: nat): nat {
    Address(base, g / SPAN_SLOTS, g % SPAN_SLOTS, osz)
  }

  ghost predicate Ascending(ids: seq<nat>) {
    forall i, j | 0 <= i < j < |ids| :: ids[i] < ids[j]
  }

  /** `out` lists the addresses of the slots `ids`, in order. */
  ghost predicate Lists(out: seq<nat>, ids: seq<nat>, base: nat, osz: nat) {
    |out| == |ids| && forall j | 0 <= j < |ids| :: out[j] == AddressOf(base, osz, ids[j])
  }

  /** From `k0` to `k1` exactly the slots `ids`, each once, were added. */
  ghost predicate Gained(k0: seq<Word>, k1: seq<Word>, ids: seq<nat>) {
    && |k0| == |k1| && SpanPools.Distinct(ids)
    && (forall g | g in ids :: Fresh(k0, g))
    && (forall i: nat, b: nat {:trigger InWord(k1, i, b)} | i < |k0| && b < BITS ::
          InWord(k1, i, b) <==> InWord(k0, i, b) || i * BITS + b in ids)
  }

  ghost predicate InWord(k: seq<Word>, i: nat, b: nat)
    requires i < |k|
  {
    b in k[i]
  }

  ghost predicate Fresh(k: seq<Word>, g: nat) {
    g / BITS < |k| && !InWord(k, g / BITS, g % BITS)
  }

  lemma GainedMore(k0: seq<Word>, k1: seq<Word>, k2: seq<Word>, xs: seq<nat>, ys: seq<nat>)
    requires Gained(k0, k1, xs) && Gained(k1, k2, ys)
    ensures Gained(k0, k2, xs + ys)
  {
    forall g | g in ys ensures Fresh(k0, g) && g !in xs {
      assert Fresh(k1, g);
      assert g / BITS * BITS + g % BITS == g;
      assert InWord(k1, g / BITS, g % BITS) <==> InWord(k0, g / BITS, g % BITS) || g in xs;
    }
    forall i, j | 0 <= i < j < |xs + ys| ensures (xs + ys)[i] != (xs + ys)[j] {
      if i < |xs| <= j { assert (xs + ys)[i] in xs && (xs + ys)[j] in ys; }
    }
    forall i: nat, b: nat | i < |k0| && b < BITS
      ensures InWord(k2, i, b) <==> InWord(k0, i, b) || i * BITS + b in xs + ys
    {
      assert InWord(k1, i, b) <==> InWord(k0, i, b) || i * BITS + b in xs;
    }
  }

  /** `ids` are the slots of the bits `taken` of word `i`, in order. */
  ghost predicate Numbers(ids: seq<nat>, i: nat, taken: Word) {
    && Ascending(ids)
    && forall g: nat {:trigger g in ids} :: g in ids <==> g / BITS == i && g % BITS in taken
  }

  lemma NumbersMore(ids: seq<nat>, i: nat, taken: Word, bit: nat)
    requires Numbers(ids, i, taken) && bit < BITS && forall b | b in taken :: b < bit
    ensures Numbers(ids + [i * BITS + bit], i, taken + {bit})
  {
    var g := i * BITS + bit;
    assert g / BITS == i && g % BITS == bit;
    forall j | 0 <= j < |ids| ensures ids[j] < g {
      assert ids[j] in ids;
    }
    forall x: nat ensures x in ids + [g] <==> x / BITS == i && x % BITS in taken + {bit} {
      assert x in ids <==> x / BITS == i && x % BITS in taken;
      assert x / BITS == i && x % BITS == bit ==> x == g;
    }
  }

  /** Bits of `word`, lowest first, while there is room. */
  method TakeWord(word: Word, i: nat, base: nat, osz: nat, room: nat) returns (taken: Word, out: seq<nat>, ghost ids: seq<nat>)
    ensures taken <= word && |out| <= room && (taken != word ==> |out| == room)
    ensures word != {} && room > 0 ==> out != []
    ensures forall b, d | b in taken && d in word - taken :: b < d
    ensures Lists(out, ids, base, osz) && Numbers(ids, i, taken)
  {
    var left: Word := word;
    ghost var low := 0;
    taken, out, ids := {}, [], [];
    while left != {} && |out| < room
      invariant taken + left == word && |out| <= room
      invariant out == [] ==> left == word
      invariant Lists(out, ids, base, osz) && Numbers(ids, i, taken)
      invariant (forall b | b in taken :: b < low) && forall b | b in left :: low <= b
      decreases left
    {
      var bit := TrailingZeros(left);
      NumbersMore(ids, i, taken, bit);
      out, ids := out + [AddressOf(base, osz, i * BITS + bit)], ids + [i * BITS + bit];
      taken, left := taken + {bit}, left - {bit};
      low := bit + 1;
    }
  }

  /** Bits free in a private word stay free, or are among those newly kept. */
  ghost predicate StaysOrGoes(a0: seq<Word>, a1: seq<Word>, k0: seq<Word>, k1: seq<Word>) {
    && |a0| == |a1| == |k0| == |k1|
    && forall i: nat {:trigger a1[i]} | i < |a0| :: a0[i] <= a1[i] + (k1[i] - k0[i])
  }

  /** The slots `ids` all belong to span `sp` and are below `slots`. */
  ghost predicate SlotsOf(ids: seq<nat>, sp: nat, slots: nat) {
    forall g | g in ids :: g / SPAN_SLOTS == sp && g % SPAN_SLOTS < slots
  }

  /** Nothing of the span's first `n` words is left in the private bitmap. */
  ghost predicate Drained(a: seq<Word>, sp: nat, n: nat) {
    forall w: nat {:trigger WordIndex(sp, w)} | w < n && WordIndex(sp, w) < |a| :: a[WordIndex(sp, w)] == {}
  }

  /** The span and the slot of bit `g % 64` of word `w` of span `sp`. */
  lemma NumberInSpan(g: nat, sp: nat, w: nat)
    requires w < WORDS_PER_SPAN && g / BITS == WordIndex(sp, w)
    ensures g / SPAN_SLOTS == sp && g % SPAN_SLOTS == w * BITS + g % BITS
  {
    assert g == sp * SPAN_SLOTS + (w * BITS + g % BITS);
  }

  lemma SlotsOfWord(ids: seq<nat>, sp: nat, w: nat, taken: Word, slots: nat)
    requires w < WORDS_PER_SPAN && Numbers(ids, WordIndex(sp, w), taken) && taken <= SlotWord(slots, w)
    ensures SlotsOf(ids, sp, slots)
  {
    forall g | g in ids ensures g / SPAN_SLOTS == sp && g % SPAN_SLOTS < slots {
      NumberInSpan(g, sp, w);
    }
  }

  /** Without deposits, what is out only grows. */
  ghost predicate OutGrows(h0: seq<Word>, h1: seq<Word>) {
    |h0| == |h1| && forall i: nat {:trigger h1[i]} | i < |h0| :: h0[i] <= h1[i]
  }

  /** What is out at the end was out at the start, or is among what we have taken: nothing else has left. */
  ghost predicate OutOnly(h0: seq<Word>, h1: seq<Word>, k0: seq<Word>, k1: seq<Word>) {
    && |h0| == |h1| == |k0| == |k1|
    && forall i: nat {:trigger h1[i]} | i < |h0| :: h1[i] <= h0[i] + (k1[i] - k0[i])
  }

  lemma OutOnlyOn(h0: seq<Word>, h1: seq<Word>, h2: seq<Word>, k0: seq<Word>, k1: seq<Word>, k2: seq<Word>)
    requires OutOnly(h0, h1, k0, k1) && OutOnly(h1, h2, k1, k2) && Grows(k0, k1) && Grows(k1, k2)
    ensures OutOnly(h0, h2, k0, k2)
  {
    forall i: nat | i < |h0| ensures h2[i] <= h0[i] + (k2[i] - k0[i]) {
      assert h1[i] <= h0[i] + (k1[i] - k0[i]) && k0[i] <= k1[i] <= k2[i];
    }
  }

  lemma ScannedGrows(a0: seq<Word>, a1: seq<Word>, k0: seq<Word>, k1: seq<Word>, ids: seq<nat>, sp: nat, w: nat, slots: nat)
    requires Scanned(a0, a1, k0, k1, ids, sp, w, slots)
    ensures Grows(k0, k1) && forall j | 0 <= j < |ids| :: ids[j] / SPAN_SLOTS == sp
  {
    forall j | 0 <= j < |ids| ensures ids[j] / SPAN_SLOTS == sp {
      assert ids[j] in ids;
    }
  }

  /** Hand out free slots of one word: fold it, take bits lowest first, clear what was taken. */
  method ScanWord(bm: SpanBitmaps, sp: nat, w: nat, base: nat, osz: nat, room: nat)
    returns (out: seq<nat>, ghost ids: seq<nat>, ghost taken: Word)
    requires bm.Valid() && sp < bm.numSpans && w < WORDS_PER_SPAN
    modifies bm`held, bm`kept, bm.freeWords, bm.allocWords
    ensures bm.Valid() && |out| <= room && Lists(out, ids, base, osz) && Numbers(ids, WordIndex(sp, w), taken)
    ensures taken <= bm.tiles[WordIndex(sp, w)] && taken !! old(bm.kept[WordIndex(sp, w)])
    ensures bm.kept == old(bm.kept)[WordIndex(sp, w) := old(bm.kept[WordIndex(sp, w)]) + taken]
    ensures bm.allocWords[..] == old(bm.allocWords[..])[WordIndex(sp, w) := bm.allocWords[..][WordIndex(sp, w)]]
    ensures old(bm.allocWords[WordIndex(sp, w)]) <= bm.allocWords[..][WordIndex(sp, w)] + taken
    ensures |out| < room ==> bm.allocWords[..][WordIndex(sp, w)] == {}
    ensures bm.quiet ==> OutGrows(old(bm.held), bm.held)
    ensures bm.quiet && |out| < room ==> bm.held[WordIndex(sp, w)] == bm.tiles[WordIndex(sp, w)]
    ensures OutOnly(old(bm.held), bm.held, old(bm.kept), bm.kept) && Grows(old(bm.kept), bm.kept)
  {
    var i := WordIndex(sp, w);
    bm.WordAt(i);
    var word := bm.FoldFreeWord(sp, w);
    bm.WordAt(i);
    var some;
    some, out, ids := TakeWord(word, i, base, osz, room);
    taken := some;
    bm.AllocClear(sp, w, some);
    bm.WordAt(i);
  }

  /** What scanning the first `w` words of span `sp` has done to the private words and to what we keep. */
  ghost predicate Scanned(a0: seq<Word>, a1: seq<Word>, k0: seq<Word>, k1: seq<Word>, ids: seq<nat>, sp: nat, w: nat, slots: nat) {
    && Ascending(ids) && SlotsOf(ids, sp, slots) && Before(ids, WordIndex(sp, w))
    && Gained(k0, k1, ids) && StaysOrGoes(a0, a1, k0, k1) && Grows(k0, k1)
    && ElsewhereSame(a0, a1, sp)
  }

  ghost predicate Before(ids: seq<nat>, i: nat) {
    forall g | g in ids :: g / BITS < i
  }

  ghost predicate Grows(k0: seq<Word>, k1: seq<Word>) {
    |k0| == |k1| && forall i: nat {:trigger k1[i]} | i < |k0| :: k0[i] <= k1[i]
  }

  lemma AscendingJoin(xs: seq<nat>, ys: seq<nat>, i: nat, taken: Word)
    requires Ascending(xs) && Before(xs, i) && Numbers(ys, i, taken)
    ensures Ascending(xs + ys) && Before(xs + ys, i + 1)
  {
    forall j, k | 0 <= j < k < |xs + ys| ensures (xs + ys)[j] < (xs + ys)[k] {
      if j < |xs| <= k {
        assert xs[j] in xs && ys[k - |xs|] in ys;
      }
    }
  }

  lemma ScannedMore(a0: seq<Word>, a1: seq<Word>, a2: seq<Word>, k0: seq<Word>, k1: seq<Word>, k2: seq<Word>,
                    ids: seq<nat>, more: seq<nat>, sp: nat, w: nat, slots: nat, taken: Word)
    requires Scanned(a0, a1, k0, k1, ids, sp, w, slots)
    requires w < WORDS_PER_SPAN && WordIndex(sp, w) < |k1| && Numbers(more, WordIndex(sp, w), taken) && taken <= SlotWord(slots, w)
    requires taken !! k1[WordIndex(sp, w)] && k2 == k1[WordIndex(sp, w) := k1[WordIndex(sp, w)] + taken]
    requires |a2| == |a1| && a2 == a1[WordIndex(sp, w) := a2[WordIndex(sp, w)]]
    requires a1[WordIndex(sp, w)] <= a2[WordIndex(sp, w)] + taken
    ensures Scanned(a0, a2, k0, k2, ids + more, sp, w + 1, slots)
  {
    var i := WordIndex(sp, w);
    AscendingJoin(ids, more, i, taken);
    SlotsOfWord(more, sp, w, taken, slots);
    GainedMore(k0, k1, k2, ids, more);
    assert Grows(k1, k2) && StaysOrGoes(a1, a2, k1, k2);
  }

  lemma ListsJoin(out: seq<nat>, ids: seq<nat>, out2: seq<nat>, ids2: seq<nat>, base: nat, osz: nat)
    requires Lists(out, ids, base, osz) && Lists(out2, ids2, base, osz)
    ensures Lists(out + out2, ids + ids2, base, osz)
  {
  }

  /** All the slots of the span's first `n` words are out. */
  ghost predicate AllOut(h: seq<Word>, t: seq<Word>, sp: nat, n: nat) {
    |h| == |t| && forall w: nat {:trigger WordIndex(sp, w)} | w < n && WordIndex(sp, w) < |h| :: h[WordIndex(sp, w)] == t[WordIndex(sp, w)]
  }

  lemma StillAllOut(h0: seq<Word>, h1: seq<Word>, t: seq<Word>, sp: nat, n: nat)
    requires AllOut(h0, t, sp, n) && OutGrows(h0, h1) && forall i: nat | i < |h1| && i < |t| :: h1[i] <= t[i]
    ensures AllOut(h1, t, sp, n)
  {
  }

  lemma AllOutMore(h: seq<Word>, t: seq<Word>, sp: nat, w: nat)
    requires AllOut(h, t, sp, w) && WordIndex(sp, w) < |h| == |t| && h[WordIndex(sp, w)] == t[WordIndex(sp, w)]
    ensures AllOut(h, t, sp, w + 1)
  {
  }

  lemma DrainedMore(a: seq<Word>, a2: seq<Word>, sp: nat, w: nat)
    requires Drained(a, sp, w) && WordIndex(sp, w) < |a| == |a2|
    requires a2 == a[WordIndex(sp, w) := {}]
    ensures Drained(a2, sp, w + 1)
  {
    forall v: nat | v < w + 1 && WordIndex(sp, v) < |a2| ensures a2[WordIndex(sp, v)] == {} {
      assert v < w ==> a[WordIndex(sp, v)] == {};
    }
  }

  lemma ScannedNone(a: seq<Word>, k: seq<Word>, sp: nat, slots: nat)
    requires |a| == |k|
    ensures Scanned(a, a, k, k, [], sp, 0, slots)
  {
  }

  lemma ScanStart(a: seq<Word>, h: seq<Word>, t: seq<Word>, sp: nat, base: nat, osz: nat)
    requires |h| == |t|
    ensures Drained(a, sp, 0) && AllOut(h, t, sp, 0) && OutGrows(h, h) && Lists([], [], base, osz)
    ensures forall k: seq<Word> | |k| == |h| :: OutOnly(h, h, k, k)
  {
  }

  lemma OutGrowsOn(h0: seq<Word>, h1: seq<Word>, h2: seq<Word>)
    requires OutGrows(h0, h1) && OutGrows(h1, h2)
    ensures OutGrows(h0, h2)
  {
    forall i: nat | i < |h0| ensures h0[i] <= h2[i] {
      assert h1[i] <= h2[i];
    }
  }

  /** Hand out free slots of one span, in ascending address order, until `room` is filled or nothing is left. */
  method ScanSpan(bm: SpanBitmaps, sp: nat, base: nat, osz: nat, room: nat, nwords: nat, ghost slots: nat)
    returns (out: seq<nat>, ghost ids: seq<nat>)
    requires bm.Valid() && sp < bm.numSpans && nwords <= WORDS_PER_SPAN && bm.Tiled(sp, slots)
    modifies bm`held, bm`kept, bm.freeWords, bm.allocWords
    ensures bm.Valid() && |out| <= room && Lists(out, ids, base, osz)
    ensures Scanned(old(bm.allocWords[..]), bm.allocWords[..], old(bm.kept), bm.kept, ids, sp, nwords, slots)
    ensures |out| < room ==> Drained(bm.allocWords[..], sp, nwords)
    ensures bm.quiet ==> OutGrows(old(bm.held), bm.held)
    ensures bm.quiet && |out| < room ==> AllOut(bm.held, bm.tiles, sp, nwords)
    ensures OutOnly(old(bm.held), bm.held, old(bm.kept), bm.kept)
  {
    hide Scanned, Drained, AllOut, OutGrows, OutOnly, Grows, Lists, Numbers, WordsOk;
    out, ids := [], [];
    var w := 0;
    ScannedNone(bm.allocWords[..], bm.kept, sp, slots);
    ScanStart(bm.allocWords[..], bm.held, bm.tiles, sp, base, osz);
    while w < nwords && |out| < room
      invariant w <= nwords && bm.Valid() && |out| <= room && Lists(out, ids, base, osz)
      invariant Scanned(old(bm.allocWords[..]), bm.allocWords[..], old(bm.kept), bm.kept, ids, sp, w, slots)
      invariant |out| < room ==> Drained(bm.allocWords[..], sp, w)
      invariant bm.quiet ==> OutGrows(old(bm.held), bm.held)
      invariant bm.quiet && |out| < room ==> AllOut(bm.held, bm.tiles, sp, w)
      invariant OutOnly(old(bm.held), bm.held, old(bm.kept), bm.kept)
    {
      ghost var a1, k1, h1 := bm.allocWords[..], bm.kept, bm.held;
      ghost var more, taken;
      var got;
      got, more, taken := ScanWord(bm, sp, w, base, osz, room - |out|);
      ScannedMore(old(bm.allocWords[..]), a1, bm.allocWords[..], old(bm.kept), k1, bm.kept, ids, more, sp, w, slots, taken);
      ListsJoin(out, ids, got, more, base, osz);
      HeldInTiles(bm);
      if bm.quiet { OutGrowsOn(old(bm.held), h1, bm.held); }
      ScannedGrows(old(bm.allocWords[..]), a1, old(bm.kept), k1, ids, sp, w, slots);
      OutOnlyOn(old(bm.held), h1, bm.held, old(bm.kept), k1, bm.kept);
      if |out + got| < room {
        DrainedMore(a1, bm.allocWords[..], sp, w);
        if bm.quiet {
          StillAllOut(h1, bm.held, bm.tiles, sp, w);
          AllOutMore(bm.held, bm.tiles, sp, w);
        }
      }
      out, ids := out + got, ids + more;
      w := w + 1;
    }
    ScannedAll(old(bm.allocWords[..]), bm.allocWords[..], old(bm.kept), bm.kept, ids, sp, w, nwords, slots);
  }

  lemma ScannedAll(a0: seq<Word>, a1: seq<Word>, k0: seq<Word>, k1: seq<Word>, ids: seq<nat>, sp: nat, w: nat, n: nat, slots: nat)
    requires Scanned(a0, a1, k0, k1, ids, sp, w, slots) && w <= n
    ensures Scanned(a0, a1, k0, k1, ids, sp, n, slots)
  {
  }

  lemma HeldInTiles(bm: SpanBitmaps)
    requires bm.Valid()
    ensures forall i: nat | i < |bm.held| && i < |bm.tiles| :: bm.held[i] <= bm.tiles[i]
  {
    forall i: nat | i < |bm.held| ensures bm.held[i] <= bm.tiles[i] {
      bm.WordAt(i);
    }
  }

  // --- a whole list ------------------------------------------------------------------------

  /** What taking from the spans `done` has done: the slots `ids` are newly kept, each once, all of them
      tiled slots of those spans, in ascending order within a span. */
  ghost predicate Took(a0: seq<Word>, a1: seq<Word>, k0: seq<Word>, k1: seq<Word>, ids: seq<nat>, done: set<nat>, slots: nat) {
    && Gained(k0, k1, ids) && StaysOrGoes(a0, a1, k0, k1) && Grows(k0, k1)
    && (forall g | g in ids :: g / SPAN_SLOTS in done && g % SPAN_SLOTS < slots)
    && (forall i, j | 0 <= i < j < |ids| && ids[i] / SPAN_SLOTS == ids[j] / SPAN_SLOTS :: ids[i] < ids[j])
  }

  lemma TookMore(a0: seq<Word>, a1: seq<Word>, a2: seq<Word>, k0: seq<Word>, k1: seq<Word>, k2: seq<Word>,
                 ids: seq<nat>, more: seq<nat>, done: set<nat>, sp: nat, nwords: nat, slots: nat)
    requires Took(a0, a1, k0, k1, ids, done, slots) && Scanned(a1, a2, k1, k2, more, sp, nwords, slots) && sp !in done
    ensures Took(a0, a2, k0, k2, ids + more, done + {sp}, slots)
  {
    GainedMore(k0, k1, k2, ids, more);
    assert forall i: nat | i < |k0| :: k0[i] <= k1[i] <= k2[i];
    forall i, j | 0 <= i < j < |ids + more| && (ids + more)[i] / SPAN_SLOTS == (ids + more)[j] / SPAN_SLOTS
      ensures (ids + more)[i] < (ids + more)[j]
    {
      if i < |ids| <= j {
        assert ids[i] in ids && more[j - |ids|] in more;
      }
    }
  }

  ghost predicate AllDrained(a: seq<Word>, done: set<nat>, n: nat) {
    forall x | x in done :: Drained(a, x, n)
  }

  ghost predicate AllOutIn(h: seq<Word>, t: seq<Word>, done: set<nat>, n: nat) {
    forall x | x in done :: AllOut(h, t, x, n)
  }

  lemma NothingTaken(a: seq<Word>, k: seq<Word>, h: seq<Word>, t: seq<Word>, slots: nat, n: nat)
    requires |a| == |k|
    ensures Took(a, a, k, k, [], {}, slots) && AllDrained(a, {}, n) && AllOutIn(h, t, {}, n)
  {
  }

  /** One more span of a take. */
  method TakeSpan(bm: SpanBitmaps, sp: nat, base: nat, osz: nat, room: nat, nwords: nat, out0: seq<nat>,
                  ghost ids0: seq<nat>, ghost done: set<nat>, ghost slots: nat, ghost tiled: nat, ghost a0: seq<Word>, ghost k0: seq<Word>)
    returns (out: seq<nat>, ghost ids: seq<nat>)
    requires bm.Valid() && sp < bm.numSpans && nwords <= WORDS_PER_SPAN && bm.Tiled(sp, tiled) && tiled <= slots && sp !in done
    requires |out0| <= room && Lists(out0, ids0, base, osz)
    requires Took(a0, bm.allocWords[..], k0, bm.kept, ids0, done, slots)
    requires |out0| < room ==> AllDrained(bm.allocWords[..], done, nwords)
    requires bm.quiet && |out0| < room ==> AllOutIn(bm.held, bm.tiles, done, nwords)
    modifies bm`held, bm`kept, bm.freeWords, bm.allocWords
    ensures bm.Valid() && |out0| <= |out| <= room && Lists(out, ids, base, osz)
    ensures Took(a0, bm.allocWords[..], k0, bm.kept, ids, done + {sp}, slots)
    ensures |out| < room ==> AllDrained(bm.allocWords[..], done + {sp}, nwords)
    ensures bm.quiet && |out| < room ==> AllOutIn(bm.held, bm.tiles, done + {sp}, nwords)
    ensures bm.quiet ==> OutGrows(old(bm.held), bm.held)
    ensures tiled == 0 ==> ids == ids0
    ensures OutOnly(old(bm.held), bm.held, old(bm.kept), bm.kept) && Grows(old(bm.kept), bm.kept)
    ensures ids0 <= ids && forall j | |ids0| <= j < |ids| :: ids[j] / SPAN_SLOTS == sp
  {
    hide Scanned, Took, OutOnly, Grows, Lists, Drained, WordsOk, AllOut, OutGrows;
    ghost var a1, k1, h1 := bm.allocWords[..], bm.kept, bm.held;
    ghost var more;
    var got;
    got, more := ScanSpan(bm, sp, base, osz, room - |out0|, nwords, tiled);
    ScannedGrows(a1, bm.allocWords[..], k1, bm.kept, more, sp, nwords, tiled);
    ScannedFewer(a1, bm.allocWords[..], k1, bm.kept, more, sp, nwords, tiled, slots);
    TookMore(a0, a1, bm.allocWords[..], k0, k1, bm.kept, ids0, more, done, sp, nwords, slots);
    ListsJoin(out0, ids0, got, more, base, osz);
    out, ids := out0 + got, ids0 + more;
    if |out| < room {
      HeldInTiles(bm);
      DrainedOn(a1, bm.allocWords[..], k1, bm.kept, more, sp, nwords, tiled, done);
      if bm.quiet { AllOutOn(h1, bm.held, bm.tiles, done, nwords); }
    }
  }

  lemma DrainedOn(a0: seq<Word>, a1: seq<Word>, k0: seq<Word>, k1: seq<Word>, ids: seq<nat>, sp: nat, n: nat, slots: nat, done: set<nat>)
    requires Scanned(a0, a1, k0, k1, ids, sp, n, slots) && AllDrained(a0, done, n) && sp !in done && n <= WORDS_PER_SPAN
    ensures AllDrained(a1, done, n)
  {
  }

  lemma AllOutOn(h0: seq<Word>, h1: seq<Word>, t: seq<Word>, done: set<nat>, n: nat)
    requires AllOutIn(h0, t, done, n) && OutGrows(h0, h1) && forall i: nat | i < |h1| && i < |t| :: h1[i] <= t[i]
    ensures AllOutIn(h1, t, done, n)
  {
    forall x | x in done ensures AllOut(h1, t, x, n) {
      StillAllOut(h0, h1, t, x, n);
    }
  }

  /** A span of fewer slots. */
  lemma ScannedFewer(a0: seq<Word>, a1: seq<Word>, k0: seq<Word>, k1: seq<Word>, ids: seq<nat>, sp: nat, n: nat, few: nat, slots: nat)
    requires Scanned(a0, a1, k0, k1, ids, sp, n, few) && few <= slots
    ensures Scanned(a0, a1, k0, k1, ids, sp, n, slots)
    ensures few == 0 ==> ids == []
  {
    assert ids != [] ==> ids[0] in ids;
  }

  ghost function Members(xs: seq<nat>): (s: set<nat>)
    ensures forall x :: x in s <==> x in xs
  {
    set x | x in xs
  }

  /** The spans a walk has scanned: those before entry `k`, and the hinted one. */
  ghost predicate Visited(done: set<nat>, xs: seq<nat>, k: nat, hint: nat) {
    && (forall j | 0 <= j < |xs| :: xs[j] in done <==> j < k || xs[j] == hint)
    && forall x | x in done :: x in xs || x == hint
  }

  ghost predicate AllTiled(xs: seq<nat>, n: nat, t: seq<Word>, slots: nat) {
    forall x | x in xs :: x < n && TiledIn(t, x, slots)
  }

  /** The walk over a list, after the hinted span. */
  method TakeList(bm: SpanBitmaps, head: nat, hint: nat, room: nat, base: nat, osz: nat, nwords: nat, out0: seq<nat>,
                  ghost ids0: seq<nat>, ghost done0: set<nat>, ghost xs: seq<nat>, ghost slots: nat,
                  ghost a0: seq<Word>, ghost k0: seq<Word>)
    returns (out: seq<nat>, ghost ids: seq<nat>)
    requires bm.Valid() && ListOk(bm.nextActive[..], bm.onList[..], head, xs) && AllTiled(xs, bm.numSpans, bm.tiles, slots)
    requires Visited(done0, xs, 0, hint) && nwords <= WORDS_PER_SPAN
    requires |out0| <= room && Lists(out0, ids0, base, osz) && Took(a0, bm.allocWords[..], k0, bm.kept, ids0, done0, slots)
    requires |out0| < room ==> AllDrained(bm.allocWords[..], done0, nwords)
    requires bm.quiet && |out0| < room ==> AllOutIn(bm.held, bm.tiles, done0, nwords)
    modifies bm`held, bm`kept, bm.freeWords, bm.allocWords
    ensures bm.Valid() && |out| <= room && Lists(out, ids, base, osz)
    ensures Took(a0, bm.allocWords[..], k0, bm.kept, ids, Members(xs) + done0, slots)
    ensures |out| < room ==> AllDrained(bm.allocWords[..], Members(xs), nwords)
    ensures bm.quiet && |out| < room ==> AllOutIn(bm.held, bm.tiles, Members(xs), nwords)
    ensures OutOnly(old(bm.held), bm.held, old(bm.kept), bm.kept) && Grows(old(bm.kept), bm.kept)
    ensures bm.quiet ==> OutGrows(old(bm.held), bm.held)
    ensures ids0 <= ids && (forall j | |ids0| <= j < |ids| :: ids[j] / SPAN_SLOTS != hint)
    ensures |out0| == room ==> ids == ids0
  {
    ghost var done := done0;
    out, ids := out0, ids0;
    var span := head;
    ghost var k := 0;
    while |out| < room && span != NO_SPAN
      invariant bm.Valid() && |out| <= room && Lists(out, ids, base, osz)
      invariant k <= |xs| && span == (if k < |xs| then xs[k] else NO_SPAN)
      invariant Visited(done, xs, k, hint) && done <= Members(xs) + done0
      invariant Took(a0, bm.allocWords[..], k0, bm.kept, ids, done, slots)
      invariant |out| < room ==> AllDrained(bm.allocWords[..], done, nwords)
      invariant bm.quiet && |out| < room ==> AllOutIn(bm.held, bm.tiles, done, nwords)
      invariant OutOnly(old(bm.held), bm.held, old(bm.kept), bm.kept) && Grows(old(bm.kept), bm.kept)
      invariant bm.quiet ==> OutGrows(old(bm.held), bm.held)
      invariant ids0 <= ids && (forall j | |ids0| <= j < |ids| :: ids[j] / SPAN_SLOTS != hint)
      invariant |out0| == room ==> ids == ids0
      decreases |xs| - k
    {
      assert LinkOk(bm.nextActive[..], bm.onList[..], xs, k);
      if span != hint {
        out, ids := TakeSpan(bm, span, base, osz, room, nwords, out, ids, done, slots, slots, a0, k0);
        done := done + {span};
      }
      span := bm.nextActive[span];
      k := k + 1;
    }
    assert k < |xs| ==> xs[k] in xs;
  }

  // --- tiling a span -------------------------------------------------------------------------

  /** The first `n` words of the span are tiled for `slots` slots, all free; the rest are still empty. */
  ghost predicate TiledTo(a: seq<Word>, t: seq<Word>, sp: nat, n: nat, slots: nat) {
    && |a| == |t|
    && forall w: nat {:trigger WordIndex(sp, w)} | w < WORDS_PER_SPAN && WordIndex(sp, w) < |t| ::
         t[WordIndex(sp, w)] == (if w < n then SlotWord(slots, w) else {}) && a[WordIndex(sp, w)] == t[WordIndex(sp, w)]
  }

  lemma NothingTiled(bm: SpanBitmaps, sp: nat, slots: nat)
    requires bm.Valid() && sp < bm.numSpans && bm.Tiled(sp, 0)
    ensures TiledTo(bm.allocWords[..], bm.tiles, sp, 0, slots)
  {
    forall w: nat | w < WORDS_PER_SPAN ensures bm.tiles[WordIndex(sp, w)] == {} == bm.allocWords[..][WordIndex(sp, w)] {
      bm.WordAt(WordIndex(sp, w));
    }
  }

  /** Mark the slots of one more word free. */
  method TileWord(bm: SpanBitmaps, sp: nat, w: nat, mask: Word, ghost slots: nat)
    requires bm.Valid() && sp < bm.numSpans && w < WORDS_PER_SPAN && mask == SlotWord(slots, w)
    requires TiledTo(bm.allocWords[..], bm.tiles, sp, w, slots)
    modifies bm`tiles, bm.allocWords
    ensures bm.Valid() && TiledTo(bm.allocWords[..], bm.tiles, sp, w + 1, slots)
    ensures ElsewhereSame(old(bm.tiles), bm.tiles, sp) && ElsewhereSame(old(bm.allocWords[..]), bm.allocWords[..], sp)
  {
    hide WordsOk, ElsewhereSame;
    ghost var a, t := bm.allocWords[..], bm.tiles;
    assert t[WordIndex(sp, w)] == {};
    bm.AllocSetMask(sp, w, mask);
    ElsewhereStep(a, a, bm.allocWords[..], sp, w);
    ElsewhereStep(t, t, bm.tiles, sp, w);
  }

  /** Mark all the slots of a fresh span free: whole words first, then the partial last one. */
  method TileSpan(bm: SpanBitmaps, sp: nat, slots: nat)
    requires bm.Valid() && sp < bm.numSpans && bm.Tiled(sp, 0) && slots <= SPAN_SLOTS
    modifies bm`tiles, bm.allocWords
    ensures bm.Valid() && bm.Tiled(sp, slots) && bm.FullUpTo(bm.allocWords[..], sp, WORDS_PER_SPAN)
    ensures ElsewhereSame(old(bm.tiles), bm.tiles, sp) && ElsewhereSame(old(bm.allocWords[..]), bm.allocWords[..], sp)
  {
    var nwords, rem := slots / BITS, slots % BITS;
    NothingTiled(bm, sp, slots);
    for w := 0 to nwords
      invariant bm.Valid() && TiledTo(bm.allocWords[..], bm.tiles, sp, w, slots)
      invariant ElsewhereSame(old(bm.tiles), bm.tiles, sp) && ElsewhereSame(old(bm.allocWords[..]), bm.allocWords[..], sp)
    {
      assert From(0) == SlotWord(slots, w);
      TileWord(bm, sp, w, From(0), slots);
    }
    if rem != 0 {
      assert Below(rem) == SlotWord(slots, nwords);
      TileWord(bm, sp, nwords, Below(rem), slots);
    }
  }

}
