/** The two bitmaps of every span and the active lists. A slot's bit is set in `alloc_words` (private to
    the holder of the span's central lock) or in `free_words` (where any thread deposits without a
    lock) while the slot is free, and in neither while it is out. */
module Bitmaps {
  import opened Words
  import opened Geometry
  import SpanPools

  const NO_SPAN: nat := SpanPools.NO_SPAN

  function WordIndex(span: nat, w: nat): nat {
    span * WORDS_PER_SPAN + w
  }

  /** One word's slots: free (private, deposited) or out; `k` are those that nobody else frees now. */
  ghost predicate WordOk(a: Word, f: Word, h: Word, k: Word, t: Word) {
    a !! f && a !! h && f !! h && a + f + h == t && k <= h
  }

  ghost predicate WordOkAt(a: seq<Word>, f: seq<Word>, h: seq<Word>, k: seq<Word>, t: seq<Word>, i: nat)
    requires i < |a| == |f| == |h| == |k| == |t|
  {
    WordOk(a[i], f[i], h[i], k[i], t[i])
  }

  ghost predicate WordsOk(a: seq<Word>, f: seq<Word>, h: seq<Word>, k: seq<Word>, t: seq<Word>) {
    && |a| == |f| == |h| == |k| == |t|
    && forall i: nat {:trigger WordOkAt(a, f, h, k, t, i)} | i < |a| :: WordOkAt(a, f, h, k, t, i)
  }

  /** Changing one word's slots consistently keeps all words right. */
  lemma OneWord(a: seq<Word>, f: seq<Word>, h: seq<Word>, k: seq<Word>, t: seq<Word>, i: nat,
                a2: Word, f2: Word, h2: Word, k2: Word, t2: Word)
    requires WordsOk(a, f, h, k, t) && i < |a| && WordOk(a2, f2, h2, k2, t2)
    ensures WordsOk(a[i := a2], f[i := f2], h[i := h2], k[i := k2], t[i := t2])
  {
    var a3, f3, h3, k3, t3 := a[i := a2], f[i := f2], h[i := h2], k[i := k2], t[i := t2];
    forall j: nat | j < |a| ensures WordOkAt(a3, f3, h3, k3, t3, j) {
      assert WordOkAt(a, f, h, k, t, j);
    }
  }

  /** Others have given back some of what was out, and nothing they hold on to. */
  ghost predicate Returned(h: seq<Word>, h2: seq<Word>) {
    |h| == |h2| && forall i: nat {:trigger h2[i]} | i < |h| :: h2[i] <= h[i]
  }

  /** Span `idx` is tiled with `slots` slots. */
  ghost predicate TiledIn(t: seq<Word>, idx: nat, slots: nat) {
    forall w: nat {:trigger WordIndex(idx, w)} | w < WORDS_PER_SPAN && WordIndex(idx, w) < |t| ::
      t[WordIndex(idx, w)] == SlotWord(slots, w)
  }

  /** None of the span's slots is out. */
  ghost predicate NoneOutIn(h: seq<Word>, x: nat) {
    forall w: nat {:trigger WordIndex(x, w)} | w < WORDS_PER_SPAN && WordIndex(x, w) < |h| :: h[WordIndex(x, w)] == {}
  }

  /** All the slots of the span's first `n` words are in the private bitmap. */
  ghost predicate FullIn(a: seq<Word>, t: seq<Word>, idx: nat, n: nat) {
    |a| == |t| && forall w: nat {:trigger WordIndex(idx, w)} | w < n && WordIndex(idx, w) < |a| ::
      a[WordIndex(idx, w)] == t[WordIndex(idx, w)]
  }

  /** Words of other spans are as they were. */
  ghost predicate ElsewhereSame(a: seq<Word>, b: seq<Word>, idx: nat) {
    && |a| == |b|
    && forall j: nat {:trigger b[j]} | j < |a| && !(WordIndex(idx, 0) <= j < WordIndex(idx + 1, 0)) :: a[j] == b[j]
  }

  lemma ElsewhereStep(a: seq<Word>, b: seq<Word>, c: seq<Word>, idx: nat, w: nat)
    requires ElsewhereSame(a, b, idx) && w < WORDS_PER_SPAN && WordIndex(idx, w) < |b| == |c|
    requires c == b[WordIndex(idx, w) := c[WordIndex(idx, w)]]
    ensures ElsewhereSame(a, c, idx)
  {
  }

  /** `xs` is the singly linked list from `head`. */
  ghost predicate ListOk(next: seq<nat>, on: seq<bool>, head: nat, xs: seq<nat>) {
    && |next| == |on| <= NO_SPAN
    && SpanPools.Distinct(xs)
    && head == SpanPools.First(xs)
    && forall k: nat {:trigger LinkOk(next, on, xs, k)} | k < |xs| :: LinkOk(next, on, xs, k)
  }

  ghost predicate LinkOk(next: seq<nat>, on: seq<bool>, xs: seq<nat>, k: nat)
    requires k < |xs| && |next| == |on|
  {
    xs[k] < |next| && on[xs[k]] && next[xs[k]] == SpanPools.NextIn(xs, k)
  }

  lemma ListKept(next: seq<nat>, on: seq<bool>, head: nat, xs: seq<nat>, next2: seq<nat>, on2: seq<bool>)
    requires ListOk(next, on, head, xs) && |next2| == |on2| == |next|
    requires forall x: nat | x in xs && x < |next| :: next2[x] == next[x] && on2[x] == on[x]
    ensures ListOk(next2, on2, head, xs)
  {
    forall k: nat | k < |xs| ensures LinkOk(next2, on2, xs, k) {
      assert LinkOk(next, on, xs, k) && xs[k] in xs;
    }
  }

  lemma ListPush(next: seq<nat>, on: seq<bool>, head: nat, xs: seq<nat>, x: nat)
    requires ListOk(next, on, head, xs) && x < |next| && x !in xs
    ensures ListOk(next[x := head], on[x := true], x, [x] + xs)
  {
    var ys, next2, on2 := [x] + xs, next[x := head], on[x := true];
    forall k: nat | k < |ys| ensures LinkOk(next2, on2, ys, k) {
      if k > 0 { assert LinkOk(next, on, xs, k - 1) && ys[k] == xs[k - 1] && ys[k] in xs; }
    }
  }

  lemma ListRemove(next: seq<nat>, on: seq<bool>, head: nat, xs: seq<nat>, k: nat, next2: seq<nat>, head2: nat)
    requires ListOk(next, on, head, xs) && k < |xs| && xs[k] < |next|
    requires if k == 0 then next2 == next[xs[k] := NO_SPAN] && head2 == next[xs[k]]
             else xs[k - 1] < |next| && next2 == next[xs[k - 1] := next[xs[k]]][xs[k] := NO_SPAN] && head2 == head
    ensures ListOk(next2, on[xs[k] := false], head2, SpanPools.Without(xs, k))
  {
    var ys, on2 := SpanPools.Without(xs, k), on[xs[k] := false];
    assert LinkOk(next, on, xs, k);
    forall i: nat | i < |ys| ensures LinkOk(next2, on2, ys, i) {
      var j := if i < k then i else i + 1;
      assert LinkOk(next, on, xs, j) && ys[i] == xs[j];
    }
  }

  /** A subset of a word with as many bits is the word. */
  lemma FullCount(a: Word, t: Word)
    requires a <= t
    ensures |a| <= |t| && (|a| == |t| <==> a == t)
  {
    SubsetCount(a, t);
  }

  class SpanBitmaps {
    const numSpans: nat
    const allocWords: array<Word>
    const freeWords: array<Word>
    const nextActive: array<nat>
    const onList: array<bool>

    /** The rest of the world: the slots of each word that are out, those of them that nobody else
        gives back for now, and whether no other thread does anything at all. */
    var held: seq<Word>
    var kept: seq<Word>
    const quiet: bool

    /** The slots each word has been tiled with. */
    ghost var tiles: seq<Word>

    ghost function Arrays(): set<object> {
      var o: object := allocWords;
      {o, freeWords, nextActive, onList}
    }

    ghost predicate Shape()
      reads this
    {
      && numSpans <= NO_SPAN && allocWords != freeWords
      && allocWords.Length == freeWords.Length == numSpans * WORDS_PER_SPAN
      && |held| == |kept| == |tiles| == numSpans * WORDS_PER_SPAN
      && nextActive.Length == onList.Length == numSpans
    }

    ghost predicate Valid()
      reads this, allocWords, freeWords
    {
      Shape() && WordsOk(allocWords[..], freeWords[..], held, kept, tiles)
    }

    constructor (spans: nat, quiet: bool)
      requires spans <= NO_SPAN
      ensures Valid() && numSpans == spans && fresh(allocWords) && fresh(freeWords) && fresh(nextActive) && fresh(onList)
      ensures this.quiet == quiet && forall i: nat | i < |tiles| :: tiles[i] == held[i] == {}
      ensures forall i: nat | i < spans :: nextActive[i] == NO_SPAN && !onList[i]
    {
      numSpans := spans;
      var n := spans * WORDS_PER_SPAN;
      allocWords := new Word[n](_ => {});
      freeWords := new Word[n](_ => {});
      nextActive := new nat[spans](_ => NO_SPAN);
      onList := new bool[spans](_ => false);
      held := seq(n, _ => {});
      kept := seq(n, _ => {});
      this.quiet := quiet;
      tiles := seq(n, _ => {});
      new;
      forall i: nat | i < n ensures WordOkAt(allocWords[..], freeWords[..], held, kept, tiles, i) {
      }
    }

    lemma WordAt(i: nat)
      requires Valid() && i < numSpans * WORDS_PER_SPAN
      ensures WordOk(allocWords[i], freeWords[i], held[i], kept[i], tiles[i])
    {
      assert WordOkAt(allocWords[..], freeWords[..], held, kept, tiles, i);
    }

    // --- deposits ----------------------------------------------------------------

    /** `fetch_or` of a mask of slots that were out. */
    method SetMask(idx: nat, w: nat, mask: Word)
      requires Valid() && idx < numSpans && w < WORDS_PER_SPAN
      requires mask <= held[WordIndex(idx, w)] && mask !! kept[WordIndex(idx, w)]
      modifies this`held, freeWords
      ensures Valid()
      ensures freeWords[..] == old(freeWords[..])[WordIndex(idx, w) := old(freeWords[WordIndex(idx, w)]) + mask]
      ensures held == old(held)[WordIndex(idx, w) := old(held[WordIndex(idx, w)]) - mask]
    {
      var i := WordIndex(idx, w);
      WordAt(i);
      OneWord(allocWords[..], freeWords[..], held, kept, tiles, i,
              allocWords[i], freeWords[i] + mask, held[i] - mask, kept[i], tiles[i]);
      assert allocWords[..][i := allocWords[i]] == allocWords[..] && kept[i := kept[i]] == kept && tiles[i := tiles[i]] == tiles;
      assert freeWords[..][i := freeWords[i] + mask] == old(freeWords[..])[i := old(freeWords[i]) + mask];
      freeWords[i] := freeWords[i] + mask;
      held := held[i := held[i] - mask];
      assert freeWords[..] == old(freeWords[..])[i := old(freeWords[i]) + mask];
    }

    /** The same for one slot. */
    method Set(idx: nat, slot: nat)
      requires Valid() && idx < numSpans && slot / BITS < WORDS_PER_SPAN
      requires slot % BITS in held[WordIndex(idx, slot / BITS)] && slot % BITS !in kept[WordIndex(idx, slot / BITS)]
      modifies this`held, freeWords
      ensures Valid()
      ensures var i := WordIndex(idx, slot / BITS);
              && freeWords[..] == old(freeWords[..])[i := old(freeWords[i]) + {slot % BITS}]
              && held == old(held)[i := old(held[i]) - {slot % BITS}]
    {
      SetMask(idx, slot / BITS, {slot % BITS});
    }

    /** Whatever other threads deposit between two of our steps. */
    method Interfere()
      requires Valid()
      modifies this`held, freeWords
      ensures Valid() && Returned(old(held), held)
      ensures quiet ==> held == old(held) && freeWords[..] == old(freeWords[..])
    {
      if quiet {
        return;
      }
      for idx := 0 to numSpans
        invariant Valid() && Returned(old(held), held)
      {
        for w := 0 to WORDS_PER_SPAN
          invariant Valid() && Returned(old(held), held)
        {
          var mask: Word := *;
          ghost var before := held;
          SetMask(idx, w, mask * (held[WordIndex(idx, w)] - kept[WordIndex(idx, w)]));
          assert Returned(before, held);
        }
      }
    }

    /** Stop pinning slots about to be deposited. */
    method Unkeep(i: nat, mask: Word)
      requires Valid() && i < numSpans * WORDS_PER_SPAN
      modifies this`kept
      ensures Valid() && kept == old(kept)[i := old(kept[i]) - mask]
    {
      WordAt(i);
      OneWord(allocWords[..], freeWords[..], held, kept, tiles, i, allocWords[i], freeWords[i], held[i], kept[i] - mask, tiles[i]);
      assert allocWords[..][i := allocWords[i]] == allocWords[..] && freeWords[..][i := freeWords[i]] == freeWords[..];
      assert held[i := held[i]] == held && tiles[i := tiles[i]] == tiles;
      kept := kept[i := kept[i] - mask];
    }

    // --- fold ----------------------------------------------------------------------

    /** Take what has been deposited in a word, as `swap(0)`: until merged it is in nobody's hands but
        ours. */
    method SwapOut(i: nat) returns (incoming: Word)
      requires Valid() && i < numSpans * WORDS_PER_SPAN
      modifies this`held, this`kept, freeWords
      ensures Valid() && incoming == old(freeWords[i])
      ensures freeWords[..] == old(freeWords[..])[i := {}]
      ensures held == old(held)[i := old(held[i]) + incoming] && kept == old(kept)[i := old(kept[i]) + incoming]
      ensures incoming !! old(held[i])
    {
      WordAt(i);
      incoming := freeWords[i];
      OneWord(allocWords[..], freeWords[..], held, kept, tiles, i,
              allocWords[i], {}, held[i] + incoming, kept[i] + incoming, tiles[i]);
      assert allocWords[..][i := allocWords[i]] == allocWords[..] && tiles[i := tiles[i]] == tiles;
      freeWords[i] := {};
      held := held[i := held[i] + incoming];
      kept := kept[i := kept[i] + incoming];
      assert freeWords[..] == old(freeWords[..])[i := {}];
    }

    method MergeIn(i: nat, incoming: Word) returns (word: Word)
      requires Valid() && i < numSpans * WORDS_PER_SPAN && incoming <= kept[i]
      modifies this`held, this`kept, allocWords
      ensures Valid() && word == old(allocWords[i]) + incoming
      ensures allocWords[..] == old(allocWords[..])[i := word]
      ensures held == old(held)[i := old(held[i]) - incoming] && kept == old(kept)[i := old(kept[i]) - incoming]
    {
      WordAt(i);
      word := allocWords[i] + incoming;
      OneWord(allocWords[..], freeWords[..], held, kept, tiles, i,
              word, freeWords[i], held[i] - incoming, kept[i] - incoming, tiles[i]);
      assert freeWords[..][i := freeWords[i]] == freeWords[..] && tiles[i := tiles[i]] == tiles;
      allocWords[i] := word;
      held := held[i := held[i] - incoming];
      kept := kept[i := kept[i] - incoming];
      assert allocWords[..] == old(allocWords[..])[i := word];
    }

    /** Fold the deposits of one word into the private word and return it. Deposits may land before the
        peek, between peek and swap, and between swap and merge: what was free on entry is in the
        result, nothing that is still out is, and no slot is lost. */
    method FoldFreeWord(idx: nat, w: nat) returns (word: Word)
      requires Valid() && idx < numSpans && w < WORDS_PER_SPAN
      modifies this`held, this`kept, freeWords, allocWords
      ensures Valid() && kept == old(kept) && Returned(old(held), held)
      ensures allocWords[..] == old(allocWords[..])[WordIndex(idx, w) := word]
      ensures old(allocWords[WordIndex(idx, w)]) + old(freeWords[WordIndex(idx, w)]) <= word
      ensures word !! held[WordIndex(idx, w)]
      ensures quiet ==> held == old(held) && freeWords[..] == old(freeWords[..])[WordIndex(idx, w) := {}]
    {
      var i := WordIndex(idx, w);
      WordAt(i);
      Interfere();
      WordAt(i);
      if freeWords[i] == {} {
        assert allocWords[..] == old(allocWords[..])[i := allocWords[i]];
        assert quiet ==> freeWords[..] == old(freeWords[..])[i := {}];
        return allocWords[i];
      }
      Interfere();
      WordAt(i);
      var incoming := SwapOut(i);
      Interfere();
      word := MergeIn(i, incoming);
      WordAt(i);
    }

    // --- the private words -----------------------------------------------------------

    /** Mark fresh slots free, when a carve tiles a span. */
    method AllocSetMask(idx: nat, w: nat, mask: Word)
      requires Valid() && idx < numSpans && w < WORDS_PER_SPAN && mask !! tiles[WordIndex(idx, w)]
      modifies this`tiles, allocWords
      ensures Valid()
      ensures allocWords[..] == old(allocWords[..])[WordIndex(idx, w) := old(allocWords[WordIndex(idx, w)]) + mask]
      ensures tiles == old(tiles)[WordIndex(idx, w) := old(tiles[WordIndex(idx, w)]) + mask]
    {
      var i := WordIndex(idx, w);
      WordAt(i);
      OneWord(allocWords[..], freeWords[..], held, kept, tiles, i,
              allocWords[i] + mask, freeWords[i], held[i], kept[i], tiles[i] + mask);
      assert freeWords[..][i := freeWords[i]] == freeWords[..] && held[i := held[i]] == held && kept[i := kept[i]] == kept;
      allocWords[i] := allocWords[i] + mask;
      tiles := tiles[i := tiles[i] + mask];
      assert allocWords[..] == old(allocWords[..])[i := old(allocWords[i]) + mask];
    }

    /** Clear the bits of slots being handed out: they are now out, in the taker's hands. */
    method AllocClear(idx: nat, w: nat, taken: Word)
      requires Valid() && idx < numSpans && w < WORDS_PER_SPAN && taken <= allocWords[WordIndex(idx, w)]
      modifies this`held, this`kept, allocWords
      ensures Valid()
      ensures allocWords[..] == old(allocWords[..])[WordIndex(idx, w) := old(allocWords[WordIndex(idx, w)]) - taken]
      ensures held == old(held)[WordIndex(idx, w) := old(held[WordIndex(idx, w)]) + taken]
      ensures kept == old(kept)[WordIndex(idx, w) := old(kept[WordIndex(idx, w)]) + taken]
      ensures taken !! old(held[WordIndex(idx, w)])
    {
      var i := WordIndex(idx, w);
      WordAt(i);
      OneWord(allocWords[..], freeWords[..], held, kept, tiles, i,
              allocWords[i] - taken, freeWords[i], held[i] + taken, kept[i] + taken, tiles[i]);
      assert freeWords[..][i := freeWords[i]] == freeWords[..] && tiles[i := tiles[i]] == tiles;
      allocWords[i] := allocWords[i] - taken;
      held := held[i := held[i] + taken];
      kept := kept[i := kept[i] + taken];
      assert allocWords[..] == old(allocWords[..])[i := old(allocWords[i]) - taken];
    }

    // --- active lists ------------------------------------------------------------------

    method LinkFront(idx: nat, head: nat, ghost xs: seq<nat>) returns (h: nat)
      requires Shape() && idx < numSpans && idx !in xs && ListOk(nextActive[..], onList[..], head, xs)
      modifies nextActive, onList
      ensures h == idx && ListOk(nextActive[..], onList[..], h, [idx] + xs)
      ensures nextActive[..] == old(nextActive[..])[idx := head] && onList[..] == old(onList[..])[idx := true]
    {
      ListPush(nextActive[..], onList[..], head, xs, idx);
      nextActive[idx] := head;
      onList[idx] := true;
      assert nextActive[..] == old(nextActive[..])[idx := head] && onList[..] == old(onList[..])[idx := true];
      h := idx;
    }

    /** Unlink entry `k` of the list, given its predecessor: the rest of the list stays linked. */
    method UnlinkActive(idx: nat, prev: nat, head: nat, ghost xs: seq<nat>, ghost k: nat) returns (h: nat)
      requires Shape() && ListOk(nextActive[..], onList[..], head, xs)
      requires idx < numSpans && k < |xs| && xs[k] == idx && prev == SpanPools.PrevIn(xs, k)
      modifies nextActive, onList
      ensures ListOk(nextActive[..], onList[..], h, SpanPools.Without(xs, k))
      ensures !onList[..][idx] && nextActive[..][idx] == NO_SPAN
      ensures forall x: nat | x < numSpans && x !in xs :: nextActive[..][x] == old(nextActive[..][x]) && onList[..][x] == old(onList[..][x])
    {
      assert LinkOk(nextActive[..], onList[..], xs, k);
      if k > 0 { assert LinkOk(nextActive[..], onList[..], xs, k - 1); }
      ghost var n0: seq<nat>, o0 := nextActive[..], onList[..];
      var succ: nat := nextActive[idx];
      h := if prev == NO_SPAN then succ else head;
      if prev != NO_SPAN {
        nextActive[prev] := succ;
      }
      nextActive[idx] := NO_SPAN;
      onList[idx] := false;
      assert onList[..] == o0[idx := false];
      ghost var n1: seq<nat> := if k == 0 then n0 else n0[prev := succ];
      assert nextActive[..] == n1[idx := NO_SPAN];
      ListRemove(n0, o0, head, xs, k, nextActive[..], h);
    }

    // --- emptiness -----------------------------------------------------------------------

    /** Span `idx` is tiled with `slots` slots. */
    ghost predicate Tiled(idx: nat, slots: nat)
      requires Shape() && idx < numSpans
      reads this
    {
      TiledIn(tiles, idx, slots)
    }

    /** None of the span's slots is out. */
    ghost predicate NoneOut(h: seq<Word>, idx: nat)
      requires |h| == numSpans * WORDS_PER_SPAN && idx < numSpans
    {
      NoneOutIn(h, idx)
    }

    /** All the slots of the span's first `n` words are in the private bitmap. */
    ghost predicate FullUpTo(a: seq<Word>, idx: nat, n: nat)
      requires Shape() && |a| == numSpans * WORDS_PER_SPAN && idx < numSpans && n <= WORDS_PER_SPAN
      reads this
    {
      FullIn(a, tiles, idx, n)
    }

    /** Fold one word and count its bits. */
    method FoldOne(idx: nat, w: nat, ghost slots: nat) returns (n: nat)
      requires Valid() && idx < numSpans && w < WORDS_PER_SPAN && Tiled(idx, slots)
      modifies this`held, this`kept, freeWords, allocWords
      ensures Valid() && kept == old(kept) && Returned(old(held), held)
      ensures allocWords[..] == old(allocWords[..])[WordIndex(idx, w) := allocWords[..][WordIndex(idx, w)]]
      ensures n <= |SlotWord(slots, w)|
      ensures n == |SlotWord(slots, w)| <==> allocWords[..][WordIndex(idx, w)] == tiles[WordIndex(idx, w)]
      ensures old(held[WordIndex(idx, w)]) == {} ==> n == |SlotWord(slots, w)|
      ensures quiet ==> held == old(held)
    {
      var i := WordIndex(idx, w);
      WordAt(i);
      var word := FoldFreeWord(idx, w);
      WordAt(i);
      FullCount(word, tiles[i]);
      n := |word|;
    }

    /** The first pass: fold every word and count. */
    method FoldAll(idx: nat, slots: nat) returns (count: nat)
      requires Valid() && idx < numSpans && slots <= WORDS_PER_SPAN * BITS && Tiled(idx, slots)
      modifies this`held, this`kept, freeWords, allocWords
      ensures Valid() && kept == old(kept) && Returned(old(held), held)
      ensures ElsewhereSame(old(allocWords[..]), allocWords[..], idx)
      ensures count == slots <==> FullUpTo(allocWords[..], idx, WORDS_PER_SPAN)
      ensures old(NoneOut(held, idx)) ==> count == slots
      ensures quiet ==> held == old(held)
    {
      hide WordsOk, FullIn, NoneOutIn, ElsewhereSame, CountTo, SlotWord;
      var nwords := (slots + 63) / BITS;
      count := 0;
      NothingFolded(allocWords[..], idx);
      CountEnds(slots);
      for w := 0 to nwords
        invariant Valid() && kept == old(kept) && Returned(old(held), held)
        invariant ElsewhereSame(old(allocWords[..]), allocWords[..], idx)
        invariant count <= CountTo(slots, w)
        invariant count == CountTo(slots, w) <==> FullUpTo(allocWords[..], idx, w)
        invariant old(NoneOut(held, idx)) ==> count == CountTo(slots, w)
        invariant quiet ==> held == old(held)
      {
        ghost var a0, h1 := allocWords[..], held;
        var n := FoldOne(idx, w, slots);
        CountStep(slots, w);
        FoldedOneMore(old(allocWords[..]), a0, allocWords[..], old(held), h1, idx, w);
        count := count + n;
      }
      EmptyBeyond(idx, slots, nwords);
    }

    lemma NothingFolded(a: seq<Word>, idx: nat)
      requires Shape() && idx < numSpans && |a| == numSpans * WORDS_PER_SPAN
      ensures ElsewhereSame(a, a, idx) && FullUpTo(a, idx, 0)
    {
    }

    lemma FoldedOneMore(a: seq<Word>, a0: seq<Word>, a1: seq<Word>, h: seq<Word>, h1: seq<Word>, idx: nat, w: nat)
      requires Shape() && |a| == |a0| == |a1| == |h| == |h1| == numSpans * WORDS_PER_SPAN && idx < numSpans && w < WORDS_PER_SPAN
      requires ElsewhereSame(a, a0, idx) && a1 == a0[WordIndex(idx, w) := a1[WordIndex(idx, w)]] && Returned(h, h1)
      ensures ElsewhereSame(a, a1, idx)
      ensures FullUpTo(a1, idx, w + 1) <==> FullUpTo(a0, idx, w) && a1[WordIndex(idx, w)] == tiles[WordIndex(idx, w)]
      ensures NoneOut(h, idx) ==> h1[WordIndex(idx, w)] == {}
    {
      assert h1[WordIndex(idx, w)] <= h[WordIndex(idx, w)];
    }

    /** Slots in the first `w` words of a span of `slots`. */
    function CountTo(slots: nat, w: nat): nat {
      if w * BITS <= slots then w * BITS else slots
    }

    lemma CountStep(slots: nat, w: nat)
      ensures CountTo(slots, w) + |SlotWord(slots, w)| == CountTo(slots, w + 1)
    {
      SlotWordCount(slots, w);
    }

    lemma CountEnds(slots: nat)
      ensures CountTo(slots, 0) == 0 && CountTo(slots, (slots + 63) / BITS) == slots
    {
    }

    /** Words past the last slot are empty everywhere. */
    lemma EmptyBeyond(idx: nat, slots: nat, nwords: nat)
      requires Valid() && idx < numSpans && slots <= nwords * BITS && nwords <= WORDS_PER_SPAN && Tiled(idx, slots)
      ensures FullUpTo(allocWords[..], idx, nwords) <==> FullUpTo(allocWords[..], idx, WORDS_PER_SPAN)
    {
      forall w: nat | nwords <= w < WORDS_PER_SPAN
        ensures allocWords[..][WordIndex(idx, w)] == tiles[WordIndex(idx, w)]
      {
        WordAt(WordIndex(idx, w));
      }
    }

    /** With every slot in the private bitmap, none is out and none is deposited. */
    lemma FullMeansFree(idx: nat)
      requires Valid() && idx < numSpans && FullUpTo(allocWords[..], idx, WORDS_PER_SPAN)
      ensures NoneOut(held, idx) && NoneOut(freeWords[..], idx)
    {
      forall w: nat | w < WORDS_PER_SPAN ensures held[WordIndex(idx, w)] == {} && freeWords[..][WordIndex(idx, w)] == {} {
        WordAt(WordIndex(idx, w));
      }
    }

    /** Whether every slot of the span is ours to hand out, whatever is deposited meanwhile. Yes means
        that none is out and none waits in `free_words`, now and until one is handed out again; and a span
        with no slot out on entry is always recognised. */
    method IsFullyFree(idx: nat, slots: nat) returns (r: bool)
      requires Valid() && idx < numSpans && slots <= WORDS_PER_SPAN * BITS && Tiled(idx, slots)
      modifies this`held, this`kept, freeWords, allocWords
      ensures Valid() && kept == old(kept) && Returned(old(held), held)
      ensures ElsewhereSame(old(allocWords[..]), allocWords[..], idx)
      ensures r ==> FullUpTo(allocWords[..], idx, WORDS_PER_SPAN) && NoneOut(held, idx) && NoneOut(freeWords[..], idx)
      ensures old(NoneOut(held, idx)) ==> r
      ensures quiet ==> held == old(held)
    {
      var nwords := (slots + 63) / BITS;
      var count := FoldAll(idx, slots);
      if count != slots {
        return false;
      }
      r := true;
      var w := 0;
      while w < nwords && r
        invariant w <= nwords && r && Valid() && kept == old(kept) && Returned(old(held), held)
        invariant ElsewhereSame(old(allocWords[..]), allocWords[..], idx)
        invariant FullUpTo(allocWords[..], idx, WORDS_PER_SPAN)
        invariant quiet ==> held == old(held)
        decreases nwords - w
      {
        Interfere();
        FullMeansFree(idx);
        r := freeWords[..][WordIndex(idx, w)] == {};
        w := w + 1;
      }
      FullMeansFree(idx);
    }

    /** Forget the span's tiling: no slot of it is out, so no deposit can be on its way. */
    method ResetBitmaps(idx: nat, clearWords: nat, ghost slots: nat)
      requires Valid() && idx < numSpans && clearWords <= WORDS_PER_SPAN && NoneOut(held, idx)
      requires slots <= clearWords * BITS && Tiled(idx, slots)
      modifies this`held, this`tiles, freeWords, allocWords
      ensures Valid() && Returned(old(held), held)
      ensures forall w: nat {:trigger WordIndex(idx, w)} | w < WORDS_PER_SPAN :: tiles[WordIndex(idx, w)] == {}
      ensures ElsewhereSame(old(tiles), tiles, idx) && ElsewhereSame(old(allocWords[..]), allocWords[..], idx)
      ensures quiet ==> held == old(held)
    {
      hide WordsOk, ElsewhereSame, ClearedTo;
      ResetStart(idx);
      for w := 0 to clearWords
        invariant Valid() && Returned(old(held), held)
        invariant ClearedTo(old(tiles), tiles, idx, w) && ElsewhereSame(old(tiles), tiles, idx)
        invariant ElsewhereSame(old(allocWords[..]), allocWords[..], idx)
        invariant quiet ==> held == old(held)
      {
        Interfere();
        ghost var t1, a1 := tiles, allocWords[..];
        assert held[WordIndex(idx, w)] <= old(held[WordIndex(idx, w)]);
        ClearWord(WordIndex(idx, w));
        ClearedMore(old(tiles), t1, tiles, idx, w);
        ElsewhereStep(old(tiles), t1, tiles, idx, w);
        ElsewhereStep(old(allocWords[..]), a1, allocWords[..], idx, w);
      }
      ClearedAll(old(tiles), tiles, idx, clearWords, slots);
    }

    lemma ResetStart(idx: nat)
      requires Shape() && idx < numSpans
      ensures ClearedTo(tiles, tiles, idx, 0) && ElsewhereSame(tiles, tiles, idx) && ElsewhereSame(allocWords[..], allocWords[..], idx)
    {
    }

    lemma ClearedAll(t0: seq<Word>, t: seq<Word>, idx: nat, n: nat, slots: nat)
      requires |t0| == |t| == numSpans * WORDS_PER_SPAN && idx < numSpans
      requires ClearedTo(t0, t, idx, n) && TiledIn(t0, idx, slots) && slots <= n * BITS
      ensures forall w: nat {:trigger WordIndex(idx, w)} | w < WORDS_PER_SPAN :: t[WordIndex(idx, w)] == {}
    {
      forall w: nat | w < WORDS_PER_SPAN ensures t[WordIndex(idx, w)] == {} {
        assert n <= w ==> SlotWord(slots, w) == {};
      }
    }

    /** The first `n` words of the span are cleared, the rest as they were. */
    ghost predicate ClearedTo(t0: seq<Word>, t: seq<Word>, idx: nat, n: nat)
      requires |t0| == |t| == numSpans * WORDS_PER_SPAN && idx < numSpans
    {
      forall v: nat {:trigger WordIndex(idx, v)} | v < WORDS_PER_SPAN ::
        t[WordIndex(idx, v)] == if v < n then {} else t0[WordIndex(idx, v)]
    }

    lemma ClearedMore(t0: seq<Word>, t1: seq<Word>, t2: seq<Word>, idx: nat, w: nat)
      requires |t0| == |t1| == numSpans * WORDS_PER_SPAN && idx < numSpans && w < WORDS_PER_SPAN
      requires ClearedTo(t0, t1, idx, w) && t2 == t1[WordIndex(idx, w) := {}]
      ensures ClearedTo(t0, t2, idx, w + 1)
    {
      forall v: nat | v < WORDS_PER_SPAN
        ensures t2[WordIndex(idx, v)] == if v < w + 1 then {} else t0[WordIndex(idx, v)]
      {
        assert t1[WordIndex(idx, v)] == if v < w then {} else t0[WordIndex(idx, v)];
      }
    }

    method ClearWord(i: nat)
      requires Valid() && i < numSpans * WORDS_PER_SPAN && held[i] == {}
      modifies this`tiles, freeWords, allocWords
      ensures Valid()
      ensures tiles == old(tiles)[i := {}] && allocWords[..] == old(allocWords[..])[i := {}]
      ensures freeWords[..] == old(freeWords[..])[i := {}]
    {
      WordAt(i);
      assert kept[i] == {};
      OneWord(allocWords[..], freeWords[..], held, kept, tiles, i, {}, {}, {}, {}, {});
      assert held[i := {}] == held && kept[i := {}] == kept;
      allocWords[i] := {};
      freeWords[i] := {};
      tiles := tiles[i := {}];
      assert allocWords[..] == old(allocWords[..])[i := {}] && freeWords[..] == old(freeWords[..])[i := {}];
    }
  }
}
