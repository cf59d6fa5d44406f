/** One sub-heap's central cells, span table, pool and arena at work. */
module SubHeaps {
  import opened Words
  import opened Geometry
  import opened Bitmaps
  import opened Central
  import SpanPools
  import SpanTables
  import Arena

  /** A `(shard, class)` cell: its active list and reuse hint. */
  class CentralList {
    const shard: nat
    const cls: nat
    var head: nat
    var reuseHint: nat

    /** The spans on the list. */
    ghost var spans: seq<nat>

    constructor (shard: nat, cls: nat)
      ensures this.shard == shard && this.cls == cls && spans == [] && head == NO_SPAN && reuseHint == NO_SPAN
    {
      this.shard, this.cls := shard, cls;
      head, reuseHint, spans := NO_SPAN, NO_SPAN, [];
    }
  }

  /** The entries of a cell's list are heads of groups tiled for its class. */
  ghost predicate Heads(spans: seq<nat>, owner: seq<nat>, tiles: seq<Word>, slots: nat) {
    forall x | x in spans :: x < |owner| && owner[x] == x && TiledIn(tiles, x, slots)
  }

  /** A span that the table gives to `cls` is tiled for it or has no slots of its own; if it is given to
      `(cls, shard)`, it has none or is on that cell's list. */
  ghost predicate Named(spans: seq<nat>, tags: seq<Option<(nat, nat)>>, tiles: seq<Word>, cls: nat, shard: nat, slots: nat) {
    forall h: nat | h < |tags| && tags[h].Some? && tags[h].value.0 == cls ::
      TiledIn(tiles, h, 0) || (TiledIn(tiles, h, slots) && (tags[h].value.1 == shard ==> h in spans))
  }

  /** A span that heads no group has no slots and is on no list. */
  ghost predicate Bare(owner: seq<nat>, tiles: seq<Word>, on: seq<bool>) {
    |owner| == |on| && forall i: nat {:trigger owner[i]} | i < |owner| && owner[i] != i :: TiledIn(tiles, i, 0) && !on[i]
  }

  /** Spans of the pool or not yet carved belong to no group. */
  ghost predicate Unowned(owner: seq<nat>, spare: set<nat>) {
    forall i | i in spare :: i < |owner| && owner[i] == NO_SPAN
  }

  lemma AllBare(owner: seq<nat>, tiles: seq<Word>, on: seq<bool>, spare: set<nat>)
    requires |owner| == |on| <= NO_SPAN && (forall i: nat | i < |on| :: !on[i]) && forall j: nat | j < |tiles| :: tiles[j] == {}
    requires (forall i: nat | i < |owner| :: owner[i] == NO_SPAN) && forall i | i in spare :: i < |owner|
    ensures Bare(owner, tiles, on) && Unowned(owner, spare)
  {
  }

  class SubHeap {
    const base: nat
    const osz: seq<nat>
    const bm: SpanBitmaps
    const table: SpanTables.SpanTable
    const pool: SpanPools.SpanPool
    const arena: Arena.BumpArena

    /** For every span the head of the group it belongs to. */
    ghost var owner: seq<nat>

    ghost predicate Fixed() {
      && 0 < bm.numSpans == pool.numSpans < NO_SPAN
      && Sized() && arena.alone == bm.quiet
      && 1 <= |osz| <= LARGE_CLASS && (forall k | 1 <= k < |osz| :: ClassSize(osz[k]))
      && bm !in pool.Repr() && bm.Arrays() !! pool.Repr() && table.entries !in bm.Arrays() && table.entries !in pool.Repr()
    }

    /** The arena need not end on a span boundary: a tail shorter than a span counts as a span. */
    ghost predicate Sized() {
      && table.base == arena.base == base && arena.end == base + table.len
      && 0 < table.len && bm.numSpans == (table.len + SPAN_BYTES - 1) / SPAN_BYTES
    }

    predicate CellFixed(c: CentralList) {
      c.shard < 0x1_0000 && 1 <= c.cls < |osz|
    }

    function Size(c: CentralList): (n: nat)
      requires Fixed() && CellFixed(c)
      ensures ClassSize(n)
    {
      osz[c.cls]
    }

    function Slots(c: CentralList): nat
      requires Fixed() && CellFixed(c)
    {
      SlotsPerSpan(Size(c))
    }

    function WordsFor(c: CentralList): nat
      requires Fixed() && CellFixed(c)
    {
      (Slots(c) + 63) / BITS
    }

    /** What the span table says of every span. */
    ghost function Tags(): (r: seq<Option<(nat, nat)>>)
      reads table.entries
    {
      seq(bm.numSpans, h requires 0 <= h reads table.entries => table.Lookup(SpanBase(base, h)))
    }

    /** Spans in the pool and whole spans beyond the cursor. A tail shorter than a span has an index and is never
        carved. */
    ghost function Spare(): set<nat>
      reads pool, arena
    {
      pool.Free() + Ahead(arena.cursor)
    }

    ghost function Ahead(cursor: nat): (r: set<nat>)
      ensures forall i: nat :: i in r <==> i < bm.numSpans && IsAhead(i, cursor)
    {
      set i: nat | i < bm.numSpans && IsAhead(i, cursor)
    }

    ghost predicate IsAhead(i: nat, cursor: nat) {
      cursor <= SpanBase(base, i) && SpanBase(base, i + 1) <= arena.end
    }

    /** The bitmaps and the groups agree, and the `spare` spans are in no group. */
    ghost predicate Mapped(spare: set<nat>)
      reads this, bm, bm.allocWords, bm.freeWords, bm.onList
    {
      && Fixed() && bm.Valid()
      && |owner| == bm.numSpans && Bare(owner, bm.tiles, bm.onList[..]) && Unowned(owner, spare)
    }

    /** No span is both in the pool and uncarved. */
    ghost predicate Stocked()
      reads pool, pool.Repr(), arena
    {
      Fixed() && pool.Valid() && arena.Valid() && table.Valid() && pool.Free() !! Ahead(arena.cursor)
    }

    ghost predicate Valid()
      reads this, bm, bm.allocWords, bm.freeWords, bm.onList, pool, pool.Repr(), arena
    {
      Mapped(Spare()) && Stocked()
    }

    ghost predicate CellOk(c: CentralList)
      requires Fixed() && CellFixed(c)
      reads this, bm, bm.nextActive, bm.onList, c, table.entries
    {
      && ListOk(bm.nextActive[..], bm.onList[..], c.head, c.spans)
      && Heads(c.spans, owner, bm.tiles, Slots(c))
      && Named(c.spans, Tags(), bm.tiles, c.cls, c.shard, Slots(c))
    }

    /** A sub-heap over `len` bytes, all of them uncarved; `alone` if no other thread is to interfere. */
    constructor (base: nat, len: nat, osz: seq<nat>, alone: bool)
      requires 0 < len && (len + SPAN_BYTES - 1) / SPAN_BYTES < NO_SPAN
      requires 1 <= |osz| <= LARGE_CLASS && forall k | 1 <= k < |osz| :: ClassSize(osz[k])
      ensures Valid() && this.base == base && this.osz == osz && bm.quiet == alone && pool.Free() == {}
      ensures arena.cursor == base && arena.end == base + len && forall i: nat | i < |bm.held| :: bm.held[i] == {}
      ensures forall p: nat :: table.Lookup(p) == None
      ensures fresh(bm) && fresh(bm.Arrays()) && fresh(pool.Repr()) && fresh(table.entries) && fresh(arena)
    {
      hide SpanPools.SpanPool.Valid, SpanPools.SpanPool.Free, WordsOk, Bare, Unowned, Arena.BumpArena.Valid;
      hide SpanTables.SpanTable.Lookup, SpanTables.SpanTable.Valid, SubHeap.IsAhead;
      var spans := (len + SPAN_BYTES - 1) / SPAN_BYTES;
      this.base, this.osz := base, osz;
      bm := new SpanBitmaps(spans, alone);
      table := new SpanTables.SpanTable(base, len);
      pool := new SpanPools.SpanPool(spans);
      arena := new Arena.BumpArena(base, base + len, alone);
      owner := seq(spans, _ => NO_SPAN);
      new;
      assert Fixed();
      AllBare(owner, bm.tiles, bm.onList[..], Spare());
    }

    // --- take ----------------------------------------------------------------------

    /** Any thread may store any span as the hint at any time. */
    method OtherHints(c: CentralList)
      modifies c`reuseHint
      ensures bm.quiet ==> c.reuseHint == old(c.reuseHint)
    {
      if !bm.quiet {
        c.reuseHint := *;
      }
    }

    /** A hint is trusted if the class has at most 64 slots a span and the table gives the span to the class. */
    ghost predicate Trusts(c: CentralList, hint: nat)
      requires Fixed() && CellFixed(c)
      reads table.entries
    {
      && Slots(c) <= 64 && hint != NO_SPAN
      && var r := table.Lookup(SpanBase(base, hint)); r.Some? && r.value.0 == c.cls
    }

    /** Whether `central_take` scans the hinted span first: it does if the table gives it to the class, wherever
        it is homed. */
    method HintedSpan(c: CentralList) returns (h: nat)
      requires Fixed() && CellFixed(c) && table.Valid()
      modifies c`reuseHint
      ensures h == NO_SPAN || h < bm.numSpans
      ensures h != NO_SPAN ==> Slots(c) <= 64 && Tags()[h].Some? && Tags()[h].value.0 == c.cls
      ensures bm.quiet ==> h == (if Trusts(c, old(c.reuseHint)) then old(c.reuseHint) else NO_SPAN)
    {
      OtherHints(c);
      var hint := c.reuseHint;
      if Slots(c) <= 64 && hint != NO_SPAN {
        var r := table.Lookup(SpanBase(base, hint));
        if r.Some? && r.value.0 == c.cls {
          assert hint < bm.numSpans;
          return hint;
        }
      }
      return NO_SPAN;
    }

    /** The spans are tiled for the cell's class. */
    ghost predicate OfClass(c: CentralList, xs: set<nat>)
      requires Fixed() && CellFixed(c)
      reads bm
    {
      forall x | x in xs :: x < bm.numSpans && TiledIn(bm.tiles, x, Slots(c))
    }

    /** Take from the hinted span, if there is one to scan. */
    method TakeHinted(c: CentralList, room: nat) returns (hint: nat, out: seq<nat>, ghost ids: seq<nat>, ghost extra: set<nat>)
      requires Fixed() && bm.Valid() && |owner| == bm.numSpans && table.Valid()
      requires CellFixed(c) && CellOk(c)
      modifies bm`held, bm`kept, bm.freeWords, bm.allocWords, c`reuseHint
      ensures bm.Valid() && |out| <= room && Lists(out, ids, base, Size(c)) && Visited(extra, c.spans, 0, hint)
      ensures Took(old(bm.allocWords[..]), bm.allocWords[..], old(bm.kept), bm.kept, ids, extra, Slots(c))
      ensures OfClass(c, extra) && |extra| <= 1
      ensures |out| < room ==> AllDrained(bm.allocWords[..], extra, WordsFor(c))
      ensures bm.quiet && |out| < room ==> AllOutIn(bm.held, bm.tiles, extra, WordsFor(c))
      ensures OutOnly(old(bm.held), bm.held, old(bm.kept), bm.kept) && Grows(old(bm.kept), bm.kept)
      ensures bm.quiet ==> hint == (if Trusts(c, old(c.reuseHint)) then old(c.reuseHint) else NO_SPAN)
      ensures bm.quiet && hint != NO_SPAN && |out| < room ==> AllOut(bm.held, bm.tiles, hint, WordsFor(c))
      ensures forall j | 0 <= j < |ids| :: ids[j] / SPAN_SLOTS == hint
    {
      hide WordsOk, ListOk;
      ghost var a0, k0 := bm.allocWords[..], bm.kept;
      WordsSuffice(Size(c));
      out, ids, extra := [], [], {};
      NothingTaken(a0, k0, bm.held, bm.tiles, Slots(c), WordsFor(c));
      InBounds(c);
      hint := HintedSpan(c);
      if hint != NO_SPAN {
        ghost var bare := TiledIn(bm.tiles, hint, 0) && hint !in c.spans;
        out, ids := TakeSpan(bm, hint, base, Size(c), room, WordsFor(c), out, ids, {}, Slots(c), if bare then 0 else Slots(c), a0, k0);
        extra := if bare then {} else {hint};
      }
      assert forall j | 0 <= j < |c.spans| :: c.spans[j] in c.spans;
    }

    lemma InBounds(c: CentralList)
      requires Fixed() && CellFixed(c) && CellOk(c)
      ensures forall x | x in c.spans :: x < NO_SPAN
    {
      forall x | x in c.spans ensures x < NO_SPAN {
        var i :| 0 <= i < |c.spans| && c.spans[i] == x;
        assert LinkOk(bm.nextActive[..], bm.onList[..], c.spans, i);
      }
    }

    /** Fill up to `room` entries with free objects of the cell's class: the hinted span first, whatever the
        hint, then the list. What is handed out was free, is handed out once and is now out, and all of it is
        of spans tiled for the class: spans of the list, and at most one more. Free slots stay free otherwise;
        and if `room` is not filled, the walk left nothing in any private word of the list. */
    method CentralTake(c: CentralList, room: nat) returns (out: seq<nat>, ghost ids: seq<nat>, ghost extra: set<nat>)
      requires Fixed() && bm.Valid() && |owner| == bm.numSpans && table.Valid()
      requires CellFixed(c) && CellOk(c)
      modifies bm`held, bm`kept, bm.freeWords, bm.allocWords, c`reuseHint
      ensures bm.Valid() && |out| <= room && Lists(out, ids, base, Size(c))
      ensures Took(old(bm.allocWords[..]), bm.allocWords[..], old(bm.kept), bm.kept, ids, Members(c.spans) + extra, Slots(c))
      ensures OfClass(c, extra) && |extra| <= 1
      ensures |out| < room ==> AllDrained(bm.allocWords[..], Members(c.spans), WordsFor(c))
      ensures bm.quiet && |out| < room ==> AllOutIn(bm.held, bm.tiles, Members(c.spans), WordsFor(c))
      ensures OutOnly(old(bm.held), bm.held, old(bm.kept), bm.kept)
      ensures bm.quiet && Trusts(c, old(c.reuseHint)) ==>
                HintFirst(ids, old(c.reuseHint), room, AllOut(bm.held, bm.tiles, old(c.reuseHint), WordsFor(c)))
    {
      hide OutOnly, Grows, Took, AllOut, OutGrows, WordsOk, HintFirst, SpanTables.SpanTable.Lookup;
      ghost var a0, k0, h0 := bm.allocWords[..], bm.kept, bm.held;
      WordsSuffice(Size(c));
      var hint;
      hint, out, ids, extra := TakeHinted(c, room);
      ghost var k1, h1, first := bm.kept, bm.held, ids;
      assert forall j | 0 <= j < |c.spans| :: c.spans[j] in c.spans;
      out, ids := TakeList(bm, c.head, hint, room, base, Size(c), WordsFor(c), out, ids, extra, c.spans, Slots(c), a0, k0);
      OutOnlyOn(h0, h1, bm.held, k0, k1, bm.kept);
      HeldInTiles(bm);
      if bm.quiet && hint != NO_SPAN {
        if |first| < room { StillAllOut(h1, bm.held, bm.tiles, hint, WordsFor(c)); }
        HintThenOthers(first, ids, hint, room, AllOut(bm.held, bm.tiles, hint, WordsFor(c)));
      }
    }

    // --- carve ---------------------------------------------------------------------

    /** Dedicate the spans of a run to a class and home. */
    method AssignRun(start: nat, count: nat, cls: SpanTables.Half, home: SpanTables.Half)
      requires Fixed() && table.Valid() && count >= 1 && start + count <= bm.numSpans && cls > 0
      modifies table.entries
      ensures Tags() == Retagged(old(Tags()), start, count, (cls, home))
    {
      ghost var t0 := Tags();
      table.AssignRange(SpanBase(base, start), count * SPAN_BYTES, cls, home);
      forall h: nat | h < bm.numSpans ensures Tags()[h] == Retagged(t0, start, count, (cls, home))[h] {
        assert base <= SpanBase(base, h) < base + table.len;
      }
    }

    /** A run of `n` spans from the pool, if its lock is free. */
    method TryPoolAlloc(n: nat, cls: SpanTables.Half, home: SpanTables.Half) returns (r: Option<nat>, busy: bool)
      requires Fixed() && pool.Valid() && table.Valid() && n >= 1 && cls > 0
      modifies pool.Repr(), table.entries
      ensures pool.Valid()
      ensures r.None? ==> pool.Free() == old(pool.Free()) && Tags() == old(Tags())
      ensures r.None? ==> busy || NoInterval(pool.Free(), n)
      ensures r.Some? ==> Range(r.value, n) <= old(pool.Free()) && pool.Free() == old(pool.Free()) - Range(r.value, n)
      ensures r.Some? ==> r.value + n <= bm.numSpans && Tags() == Retagged(old(Tags()), r.value, n, (cls, home))
      ensures r.Some? ==> !NoInterval(old(pool.Free()), n)
      ensures bm.quiet ==> !busy
    {
      busy := *;
      if busy && !bm.quiet {
        return None, true;
      }
      busy := false;
      ghost var runs0 := pool.runs;
      r := pool.Alloc(n);
      if r.None? {
        NoRunNoInterval(runs0, pool.numSpans, n);
      } else {
        assert r.value + n - 1 in Range(r.value, n);
        AssignRun(r.value, n, cls, home);
      }
    }

    /** Up to `n` spans, as many as are left from `cursor`. */
    function Left(n: nat, cursor: nat): nat {
      if n <= Arena.SpansLeft(arena.end, cursor) then n else Arena.SpansLeft(arena.end, cursor)
    }

    /** The run of a carve for `n` spans came from the pool, whole, and the arena was left alone; or from the arena, and
        then the pool was busy or had no such run. Undisturbed, the pool always goes first. */
    twostate predicate PoolFirst(n: nat, start: nat, count: nat, busy: bool)
      reads this, bm, pool, arena
    {
      && (Range(start, count) <= old(pool.Free()) && count > 0 ==> count == n && arena.cursor == old(arena.cursor))
      && (!(Range(start, count) <= old(pool.Free())) ==> busy || NoInterval(old(pool.Free()), n))
      && (bm.quiet && !NoInterval(old(pool.Free()), n) ==>
            count == n && Range(start, n) <= old(pool.Free()) && arena.cursor == old(arena.cursor))
    }

    /** A run for a carve: from the pool if it has one of `n` spans and is not busy, else up to `n` from the
        arena. None only when the arena has no whole span left. */
    method CarveOrReuse(n: nat, cls: SpanTables.Half, home: SpanTables.Half) returns (start: nat, count: nat, busy: bool)
      requires Stocked() && n >= 1 && cls > 0
      modifies pool.Repr(), table.entries, arena
      ensures Stocked()
      ensures count <= n && start + count <= bm.numSpans
      ensures Range(start, count) <= old(Spare()) && Spare() <= old(Spare()) - Range(start, count)
      ensures Tags() == Dedicated(old(Tags()), start, count, (cls, home))
      ensures count == 0 ==> Ahead(arena.cursor) == {} && (busy || NoInterval(pool.Free(), n))
      ensures bm.quiet ==> !busy && (NoInterval(old(pool.Free()), n) ==> count == Left(n, old(arena.cursor)))
      ensures PoolFirst(n, start, count, busy)
    {
      hide SpanPools.SpanPool.Valid;
      var r;
      r, busy := TryPoolAlloc(n, cls, home);
      if r.Some? {
        return r.value, n, busy;
      }
      start, count := CarveFresh(n, cls, home);
      assert count > 0 ==> start in Range(start, count) && start !in old(pool.Free());
    }

    /** Up to `n` spans that no thread has had before, dedicated to a class and home. */
    method CarveFresh(n: nat, cls: SpanTables.Half, home: SpanTables.Half) returns (start: nat, count: nat)
      requires Fixed() && arena.Valid() && table.Valid() && n >= 1 && cls > 0
      modifies table.entries, arena
      ensures arena.Valid() && count <= n && start + count <= bm.numSpans
      ensures Range(start, count) <= Ahead(old(arena.cursor)) && Ahead(arena.cursor) <= Ahead(old(arena.cursor)) - Range(start, count)
      ensures Tags() == Dedicated(old(Tags()), start, count, (cls, home))
      ensures count == 0 ==> Ahead(arena.cursor) == {}
      ensures bm.quiet ==> count == Left(n, old(arena.cursor))
    {
      var from, to := arena.CarveSpans(n);
      ClaimedSpans(from, to, n);
      start, count := (from - base) / SPAN_BYTES, (to - from) / SPAN_BYTES;
      if count > 0 {
        AssignRun(start, count, cls, home);
      } else {
        start := 0;
      }
    }

    /** A claim of the arena in span numbers. */
    lemma ClaimedSpans(from: nat, to: nat, n: nat)
      requires Fixed() && base <= from <= to <= arena.end
      requires (from - base) % SPAN_BYTES == 0 && to - from == Arena.ClaimBytes(arena.end, from, n)
      ensures var start, count := (from - base) / SPAN_BYTES, (to - from) / SPAN_BYTES;
              && from == SpanBase(base, start) && to == SpanBase(base, start + count) && start + count <= bm.numSpans
              && count == Left(n, from) && (count == 0 && n > 0 ==> Ahead(from) == {})
    {
    }

    /** The spans of a run just claimed are in no group, and no longer spare. */
    ghost predicate Unclaimed(h: nat, n: nat, spare: set<nat>)
      requires |owner| == bm.numSpans && h + n <= bm.numSpans
      reads this
    {
      Range(h, n) !! spare && forall i: nat | h <= i < h + n :: owner[i] == NO_SPAN
    }

    /** Tile span `x` of a fresh run and put it on the cell's list. */
    method AddSpan(c: CentralList, x: nat, ghost got: nat, ghost spare: set<nat>)
      requires Mapped(spare) && CellFixed(c) && CellOk(c) && got >= 1 && x + got <= bm.numSpans && Unclaimed(x, got, spare)
      modifies this`owner, bm`tiles, bm.allocWords, bm.nextActive, bm.onList, c`head, c`spans
      ensures Mapped(spare) && CellOk(c) && c.spans == [x] + old(c.spans)
      ensures owner == Claimed(old(owner), x, got)
      ensures bm.FullUpTo(bm.allocWords[..], x, WORDS_PER_SPAN)
      ensures ElsewhereSame(old(bm.tiles), bm.tiles, x) && ElsewhereSame(old(bm.allocWords[..]), bm.allocWords[..], x)
      ensures KeepsTiled(old(bm.tiles), bm.tiles)
    {
      ghost var t0, on0, nx0 := bm.tiles, bm.onList[..], bm.nextActive[..];
      WordsSuffice(Size(c));
      assert owner[x] != x && TiledIn(t0, x, 0) && !on0[x];
      TileSpan(bm, x, Slots(c));
      NotListed(c.spans, nx0, on0, c.head, x);
      if !bm.onList[x] {
        c.head := bm.LinkFront(x, c.head, c.spans);
        c.spans := [x] + c.spans;
      }
      ghost var o0 := owner;
      owner := Claimed(owner, x, got);
      assert bm.onList[..] == on0[x := true];
      KeepsElsewhere(t0, bm.tiles, x);
      AddedSpan(o0, owner, t0, bm.tiles, on0, x, got, spare);
      AddedToCell(old(c.spans), Tags(), o0, owner, t0, bm.tiles, x, got, Slots(c), c.cls, c.shard);
    }

    function Group(c: CentralList): nat
      requires Fixed() && CellFixed(c)
    {
      GroupSpans(Size(c))
    }

    /** Every group on the list got all the spans its class needs. */
    ghost predicate Whole(c: CentralList)
      requires Fixed() && CellFixed(c)
      reads this, c`spans
    {
      WholeIn(c.spans, owner, Group(c))
    }

    /** Spans a carve asks for: enough for `batch` objects, at least one; a whole group for a class above
        the span size. */
    function SpansWanted(c: CentralList, batch: nat): (n: nat)
      requires Fixed() && CellFixed(c)
      ensures n >= 1
    {
      if Size(c) > SPAN_BYTES then Group(c)
      else
        var perSpan := SPAN_BYTES / Size(c);
        if batch == 0 || perSpan == 0 then 1 else (batch + perSpan - 1) / perSpan
    }

    /** A carve asks for the fewest spans that have room for `batch` objects, at least one; for the spans of one
        object if a span is too small for one. */
    lemma FewestSpans(c: CentralList, batch: nat)
      requires Fixed() && CellFixed(c)
      ensures Size(c) <= SPAN_BYTES ==> batch <= SpansWanted(c, batch) * Slots(c)
      ensures Size(c) <= SPAN_BYTES && SpansWanted(c, batch) > 1 ==> (SpansWanted(c, batch) - 1) * Slots(c) < batch
      ensures Size(c) > SPAN_BYTES ==> (SpansWanted(c, batch) - 1) * SPAN_BYTES < Size(c) <= SpansWanted(c, batch) * SPAN_BYTES
    {
      if Size(c) <= SPAN_BYTES {
        MostSlots(Size(c));
        CeilingOf(batch, Slots(c));
      }
    }

    /** Get a run dedicated to the cell. */
    method Acquire(c: CentralList, n: nat) returns (start: nat, count: nat, busy: bool)
      requires Valid() && CellFixed(c) && CellOk(c) && n >= 1
      modifies pool.Repr(), table.entries, arena
      ensures Valid() && CellOk(c)
      ensures count <= n && start + count <= bm.numSpans && Unclaimed(start, count, Spare())
      ensures count == 0 ==> Ahead(arena.cursor) == {} && (busy || NoInterval(pool.Free(), n))
      ensures bm.quiet ==> !busy && (NoInterval(old(pool.Free()), n) ==> count == Left(n, old(arena.cursor)))
      ensures PoolFirst(n, start, count, busy)
    {
      hide SpanPools.SpanPool.Valid;
      ghost var spare, tags := Spare(), Tags();
      start, count, busy := CarveOrReuse(n, c.cls, c.shard);
      Acquired(c, spare, tags, start, count);
    }

    lemma Acquired(c: CentralList, spare: set<nat>, tags: seq<Option<(nat, nat)>>, start: nat, count: nat)
      requires Mapped(spare) && CellFixed(c) && table.Valid() && ListOk(bm.nextActive[..], bm.onList[..], c.head, c.spans)
      requires Heads(c.spans, owner, bm.tiles, Slots(c)) && Named(c.spans, tags, bm.tiles, c.cls, c.shard, Slots(c)) && |tags| == bm.numSpans
      requires Tags() == Dedicated(tags, start, count, (c.cls, c.shard)) && start + count <= bm.numSpans
      requires Range(start, count) <= spare && Spare() <= spare - Range(start, count)
      ensures Mapped(Spare()) && CellOk(c) && Unclaimed(start, count, Spare())
    {
      forall i: nat | start <= i < start + count ensures owner[i] == NO_SPAN {
        assert i in Range(start, count);
      }
      RetaggedCell(c.spans, tags, owner, bm.tiles, bm.onList[..], start, count, c.cls, c.shard, Slots(c));
    }

    /** How far a carve has come that started with list `xs0` and private words `a0`: spans `lo` to `hi` are
        tiled, wholly free and at the front of the list, and nothing that was free is lost. */
    ghost predicate CarvedTo(xs: seq<nat>, a: seq<Word>, t: seq<Word>, o: seq<nat>, lo: nat, hi: nat,
                             xs0: seq<nat>, a0: seq<Word>, o0: seq<nat>, g: nat)
      requires lo <= hi
    {
      && PutInFront(xs, lo, hi - lo, xs0) && FullRange(lo, hi, a, t) && Grows(a0, a)
      && (g == 1 && WholeIn(xs0, o0, g) ==> WholeIn(xs, o, g))
    }

    /** One more span of a carve. */
    method AddNext(c: CentralList, x: nat, ghost lo: nat, ghost xs0: seq<nat>, ghost a0: seq<Word>, ghost o0: seq<nat>,
                   ghost rest: nat, ghost spare: set<nat>)
      requires Mapped(spare) && CellFixed(c) && CellOk(c) && lo <= x && x + 1 + rest <= bm.numSpans
      requires Unclaimed(x, 1 + rest, spare)
      requires CarvedTo(c.spans, bm.allocWords[..], bm.tiles, owner, lo, x, xs0, a0, o0, Group(c))
      modifies this`owner, bm`tiles, bm.allocWords, bm.nextActive, bm.onList, c`head, c`spans
      ensures Mapped(spare) && CellOk(c) && Unclaimed(x + 1, rest, spare) && KeepsTiled(old(bm.tiles), bm.tiles)
      ensures CarvedTo(c.spans, bm.allocWords[..], bm.tiles, owner, lo, x + 1, xs0, a0, o0, Group(c))
    {
      ghost var a1, t1, o1, xs := bm.allocWords[..], bm.tiles, owner, c.spans;
      BareIsEmpty(x, spare);
      AddSpan(c, x, 1, spare);
      StillFull(a1, bm.allocWords[..], t1, bm.tiles, lo, x);
      if Group(c) == 1 && WholeIn(xs0, o0, 1) { WholeMore(xs, o1, owner, x, 1); }
    }

    /** A span that heads no group has nothing in its private words. */
    lemma BareIsEmpty(x: nat, spare: set<nat>)
      requires Mapped(spare) && x < bm.numSpans && owner[x] != x
      ensures Drained(bm.allocWords[..], x, WORDS_PER_SPAN)
    {
      assert TiledIn(bm.tiles, x, 0);
      forall w: nat | w < WORDS_PER_SPAN && WordIndex(x, w) < bm.allocWords.Length ensures bm.allocWords[..][WordIndex(x, w)] == {} {
        bm.WordAt(WordIndex(x, w));
      }
    }

    /** Tile each span of a run by itself. */
    method CarveSmall(c: CentralList, start: nat, count: nat, ghost spare: set<nat>) returns (n: nat)
      requires Mapped(spare) && CellFixed(c) && CellOk(c) && start + count <= bm.numSpans && Unclaimed(start, count, spare)
      modifies this`owner, bm`tiles, bm.allocWords, bm.nextActive, bm.onList, c`head, c`spans
      ensures Mapped(spare) && CellOk(c) && n == Total(count, Slots(c)) && KeepsTiled(old(bm.tiles), bm.tiles)
      ensures CarvedTo(c.spans, bm.allocWords[..], bm.tiles, owner, start, start + count,
                       old(c.spans), old(bm.allocWords[..]), old(owner), Group(c))
    {
      n := 0;
      var i := 0;
      while i < count
        invariant i <= count && Mapped(spare) && CellOk(c) && n == Total(i, Slots(c)) && KeepsTiled(old(bm.tiles), bm.tiles)
        invariant Unclaimed(start + i, count - i, spare)
        invariant CarvedTo(c.spans, bm.allocWords[..], bm.tiles, owner, start, start + i,
                           old(c.spans), old(bm.allocWords[..]), old(owner), Group(c))
      {
        ghost var t1 := bm.tiles;
        AddNext(c, start + i, start, old(c.spans), old(bm.allocWords[..]), old(owner), count - i - 1, spare);
        KeepsOn(old(bm.tiles), t1, bm.tiles);
        n, i := n + Slots(c), i + 1;
      }
    }

    /** Tile the head of a run for one object of a class above the span size. */
    method CarveGroup(c: CentralList, start: nat, count: nat, ghost spare: set<nat>) returns (n: nat)
      requires Mapped(spare) && CellFixed(c) && CellOk(c) && start + count <= bm.numSpans && Unclaimed(start, count, spare)
      requires count > 0 && Size(c) > SPAN_BYTES
      modifies this`owner, bm`tiles, bm.allocWords, bm.nextActive, bm.onList, c`head, c`spans
      ensures Mapped(spare) && CellOk(c) && n == 1 && owner == Claimed(old(owner), start, count) && KeepsTiled(old(bm.tiles), bm.tiles)
      ensures CarvedTo(c.spans, bm.allocWords[..], bm.tiles, owner, start, start + 1,
                       old(c.spans), old(bm.allocWords[..]), old(owner), Group(c))
      ensures count == Group(c) && old(Whole(c)) ==> Whole(c)
    {
      ghost var a1, t1, xs, o1 := bm.allocWords[..], bm.tiles, c.spans, owner;
      BareIsEmpty(start, spare);
      AddSpan(c, start, count, spare);
      if count == Group(c) && WholeIn(xs, o1, count) { WholeMore(xs, o1, owner, start, count); }
      StillFull(a1, bm.allocWords[..], t1, bm.tiles, start, start);
      n := 1;
    }

    /** Tile a run just claimed: `k` spans of it head a tiling. */
    method CarveRun(c: CentralList, start: nat, count: nat) returns (n: nat, ghost k: nat)
      requires Valid() && CellFixed(c) && CellOk(c)
      requires count > 0 && start + count <= bm.numSpans && Unclaimed(start, count, Spare())
      modifies this`owner, bm`tiles, bm.allocWords, bm.nextActive, bm.onList, c`head, c`spans
      ensures Mapped(Spare()) && CellOk(c) && KeepsTiled(old(bm.tiles), bm.tiles)
      ensures n == k * Slots(c) && n > 0 && k == (if Size(c) > SPAN_BYTES then 1 else count)
      ensures CarvedTo(c.spans, bm.allocWords[..], bm.tiles, owner, start, start + k,
                       old(c.spans), old(bm.allocWords[..]), old(owner), Group(c))
      ensures old(Whole(c)) && (Size(c) > SPAN_BYTES ==> count == Group(c)) ==> Whole(c)
    {
      hide SpanPools.SpanPool.Valid;
      if Size(c) > SPAN_BYTES {
        n := CarveGroup(c, start, count, Spare());
        k := 1;
      } else {
        n := CarveSmall(c, start, count, Spare());
        k := count;
        TotalIs(count, Slots(c));
      }
    }

    /** Tile the run if there is one. */
    method FinishCarve(c: CentralList, start: nat, count: nat) returns (n: nat, ghost k: nat)
      requires Valid() && CellFixed(c) && CellOk(c)
      requires start + count <= bm.numSpans && Unclaimed(start, count, Spare())
      modifies this`owner, bm`tiles, bm.allocWords, bm.nextActive, bm.onList, c`head, c`spans
      ensures Valid() && CellOk(c) && n == k * Slots(c) && (n == 0 <==> k == 0) && KeepsTiled(old(bm.tiles), bm.tiles)
      ensures k == if count == 0 then 0 else if Size(c) > SPAN_BYTES then 1 else count
      ensures k > 0 ==> CarvedTo(c.spans, bm.allocWords[..], bm.tiles, owner, start, start + k,
                                 old(c.spans), old(bm.allocWords[..]), old(owner), Group(c))
      ensures n == 0 ==> c.spans == old(c.spans) && bm.allocWords[..] == old(bm.allocWords[..]) && bm.tiles == old(bm.tiles)
      ensures old(Whole(c)) && (Size(c) > SPAN_BYTES && count > 0 ==> count == Group(c)) ==> Whole(c)
    {
      hide SpanPools.SpanPool.Valid, WordsOk;
      n, k := 0, 0;
      if count > 0 {
        n, k := CarveRun(c, start, count);
        assert Stocked();
      }
    }

    /** Carve fresh objects for the cell: of the `count` spans got from `start` on, `k` are tiled, all their slots
        free, and at the front of the list; nothing that was free is lost. Zero objects means the arena has no
        whole span left and the pool no run of the wanted length, or is busy. A class above the span size gets its
        one object from whatever was got: only if that is as much as it asked for do the groups stay whole. */
    method CentralCarve(c: CentralList, batch: nat) returns (n: nat, ghost start: nat, ghost k: nat, busy: bool, ghost count: nat)
      requires Valid() && CellFixed(c) && CellOk(c)
      modifies this`owner, bm`tiles, bm.allocWords, bm.nextActive, bm.onList, c`head, c`spans
      modifies pool.Repr(), table.entries, arena
      ensures Valid() && CellOk(c) && n == k * Slots(c) && (n == 0 <==> k == 0) && KeepsTiled(old(bm.tiles), bm.tiles)
      ensures k > 0 ==> CarvedTo(c.spans, bm.allocWords[..], bm.tiles, owner, start, start + k,
                                 old(c.spans), old(bm.allocWords[..]), old(owner), Group(c))
      ensures n == 0 ==> c.spans == old(c.spans) && bm.allocWords[..] == old(bm.allocWords[..]) && bm.tiles == old(bm.tiles)
      ensures n == 0 ==> Ahead(arena.cursor) == {} && (busy || NoInterval(pool.Free(), SpansWanted(c, batch)))
      ensures bm.quiet ==> !busy
      ensures count <= SpansWanted(c, batch) && k == if count == 0 then 0 else if Size(c) > SPAN_BYTES then 1 else count
      ensures old(Whole(c)) && (Size(c) > SPAN_BYTES && count > 0 ==> count == Group(c)) ==> Whole(c)
      ensures bm.quiet && NoInterval(old(pool.Free()), SpansWanted(c, batch)) ==> count == Left(SpansWanted(c, batch), old(arena.cursor))
      ensures PoolFirst(SpansWanted(c, batch), start, count, busy)
    {
      hide SpanPools.SpanPool.Valid, WordsOk, CarvedTo, WholeIn, NoInterval, Heads, Named, ListOk;
      var from, got;
      from, got, busy := Acquire(c, SpansWanted(c, batch));
      start, count := from, got;
      n, k := FinishCarve(c, from, got);
    }

    // --- refill --------------------------------------------------------------------

    /** Why a refill may come back short: nothing is left in any private word of the cell's list (and
        without deposits every slot of it is out), the arena has no whole span left, and the pool has no
        run of the wanted length or is busy. */
    ghost predicate Exhausted(c: CentralList, batch: nat, busy: bool)
      requires Fixed() && CellFixed(c) && bm.Shape()
      reads this, bm, bm.allocWords, c, pool, arena
    {
      && AllDrained(bm.allocWords[..], Members(c.spans), WordsFor(c))
      && (bm.quiet ==> AllOutIn(bm.held, bm.tiles, Members(c.spans), WordsFor(c)))
      && Ahead(arena.cursor) == {} && (busy || NoInterval(pool.Free(), SpansWanted(c, batch)))
    }

    /** What has been handed out so far, from words kept out `k0`. */
    ghost predicate Filling(c: CentralList, room: nat, out: seq<nat>, ids: seq<nat>, k0: seq<Word>)
      requires Fixed() && CellFixed(c) && bm.Shape()
      reads this, bm, bm.allocWords, c
    {
      && |out| <= room && Lists(out, ids, base, Size(c))
      && Gained(k0, bm.kept, ids) && TiledSlots(ids, bm.tiles, Slots(c))
      && (|out| < room ==> AllDrained(bm.allocWords[..], Members(c.spans), WordsFor(c)))
      && (bm.quiet && |out| < room ==> AllOutIn(bm.held, bm.tiles, Members(c.spans), WordsFor(c)))
    }

    /** No span has been asked of the pool or the arena, and none put on the list. */
    twostate predicate NoCarve(c: CentralList)
      reads this, bm, c, pool, arena, table.entries
    {
      && owner == old(owner) && bm.tiles == old(bm.tiles) && c.spans == old(c.spans) && pool.Free() == old(pool.Free())
      && arena.cursor == old(arena.cursor) && Tags() == old(Tags())
    }

    /** A take that comes back short has handed out every free slot of the list: those that were in the private words,
        and without deposits those that had been deposited too. */
    lemma ListShort(c: CentralList, room: nat, ids: seq<nat>, extra: set<nat>, h0: seq<Word>, a0: seq<Word>, k0: seq<Word>)
      requires Fixed() && bm.Valid() && CellFixed(c) && Heads(c.spans, owner, bm.tiles, Slots(c)) && |owner| == bm.numSpans
      requires Took(a0, bm.allocWords[..], k0, bm.kept, ids, Members(c.spans) + extra, Slots(c)) && OutOnly(h0, bm.held, k0, bm.kept)
      requires AllDrained(bm.allocWords[..], Members(c.spans), WordsFor(c)) && |ids| < room
      requires forall i: nat | i < |a0| && i < |bm.tiles| :: a0[i] <= bm.tiles[i]
      requires bm.quiet ==> AllOutIn(bm.held, bm.tiles, Members(c.spans), WordsFor(c))
      ensures |PrivateSlots(c.spans, a0)| < room && (bm.quiet ==> |FreeSlots(c.spans, h0, bm.tiles)| < room)
    {
      WordsSuffice(Size(c));
      PrivateTaken(c.spans, a0, bm.allocWords[..], k0, bm.kept, bm.tiles, ids, Members(c.spans) + extra, Slots(c), WordsFor(c));
      ListCount(ids);
      SubsetCount(PrivateSlots(c.spans, a0), Members(ids));
      if bm.quiet {
        FreeTaken(c.spans, h0, bm.held, k0, bm.kept, bm.tiles, ids, Slots(c), WordsFor(c));
        SubsetCount(FreeSlots(c.spans, h0, bm.tiles), Members(ids));
      }
    }

    /** Fill `room` entries for a magazine: take, and while there is room carve and take again. Every slot
        handed out is handed out once and was not out; after a carve that made anything the next take finds
        something, so the loop ends; and a short fill means the cell, the pool and the arena are exhausted. */
    method RefillBatch(c: CentralList, room: nat, batch: nat) returns (out: seq<nat>, ghost ids: seq<nat>, busy: bool)
      requires Valid() && CellFixed(c) && CellOk(c)
      modifies this`owner, bm`tiles, bm`held, bm`kept, bm.freeWords, bm.allocWords, bm.nextActive, bm.onList, c`head, c`spans, c`reuseHint
      modifies pool.Repr(), table.entries, arena
      ensures Valid() && CellOk(c) && |out| <= room && Lists(out, ids, base, Size(c))
      ensures Gained(old(bm.kept), bm.kept, ids) && TiledSlots(ids, bm.tiles, Slots(c))
      ensures |out| < room ==> Exhausted(c, batch, busy)
      ensures |PrivateSlots(old(c.spans), old(bm.allocWords[..]))| >= room ==> NoCarve(c)
      ensures bm.quiet && |FreeSlots(old(c.spans), old(bm.held), old(bm.tiles))| >= room ==> NoCarve(c)
    {
      hide SpanPools.SpanPool.Valid, WordsOk;
      ghost var k0 := bm.kept;
      busy := false;
      out, ids := FirstTake(c, room);
      ghost var first := |out|;
      while |out| < room
        invariant Valid() && CellOk(c) && Filling(c, room, out, ids, k0)
        invariant first <= |out| && (first == room ==> NoCarve(c))
        decreases room - |out|
      {
        var n;
        n, out, ids, busy := CarveAndTake(c, room, batch, out, ids, k0);
        if n == 0 {
          break;
        }
      }
    }

    /** The take from what the list has. */
    method FirstTake(c: CentralList, room: nat) returns (out: seq<nat>, ghost ids: seq<nat>)
      requires Valid() && CellFixed(c) && CellOk(c)
      modifies bm`held, bm`kept, bm.freeWords, bm.allocWords, c`reuseHint
      ensures Valid() && CellOk(c) && Filling(c, room, out, ids, old(bm.kept)) && NoCarve(c)
      ensures |out| < room ==> |PrivateSlots(c.spans, old(bm.allocWords[..]))| < room
      ensures bm.quiet && |out| < room ==> |FreeSlots(c.spans, old(bm.held), bm.tiles)| < room
    {
      hide SpanPools.SpanPool.Valid, WordsOk, OutOnly, HintFirst;
      ghost var a0, h0, k0 := bm.allocWords[..], bm.held, bm.kept;
      PrivateInTiles();
      ghost var extra;
      out, ids, extra := CentralTake(c, room);
      if |out| < room { ListShort(c, room, ids, extra, h0, a0, k0); }
    }

    lemma PrivateInTiles()
      requires bm.Valid()
      ensures forall i: nat | i < |bm.allocWords[..]| && i < |bm.tiles| :: bm.allocWords[..][i] <= bm.tiles[i]
    {
      forall i: nat | i < bm.allocWords.Length ensures bm.allocWords[..][i] <= bm.tiles[i] {
        bm.WordAt(i);
      }
    }

    /** A take with more entries already filled. */
    method TakeMore(c: CentralList, room: nat, out0: seq<nat>, ghost ids0: seq<nat>, ghost k0: seq<Word>, ghost x: nat)
      returns (out: seq<nat>, ghost ids: seq<nat>)
      requires Valid() && CellFixed(c) && CellOk(c) && |out0| < room
      requires Lists(out0, ids0, base, Size(c)) && Gained(k0, bm.kept, ids0) && TiledSlots(ids0, bm.tiles, Slots(c))
      requires x in c.spans && FullIn(bm.allocWords[..], bm.tiles, x, WORDS_PER_SPAN)
      modifies bm`held, bm`kept, bm.freeWords, bm.allocWords, c`reuseHint
      ensures Valid() && CellOk(c) && |out0| < |out| && Filling(c, room, out, ids, k0)
    {
      hide SpanPools.SpanPool.Valid, WordsOk;
      ghost var a1, k1 := bm.allocWords[..], bm.kept;
      var got;
      ghost var more, extra;
      got, more, extra := CentralTake(c, room - |out0|);
      assert Stocked();
      if |got| < room - |out0| {
        TakeFindsSome(a1, bm.allocWords[..], k1, bm.kept, bm.tiles, more, x, c.spans, extra, Slots(c), WordsFor(c));
      }
      GainedMore(k0, k1, bm.kept, ids0, more);
      ListsJoin(out0, ids0, got, more, base, Size(c));
      out, ids := out0 + got, ids0 + more;
    }

    /** A carve as a refill sees it: nothing changed for the list, or a wholly free span `x` on it. */
    method CarveSome(c: CentralList, batch: nat, ghost ids: seq<nat>) returns (n: nat, ghost x: nat, busy: bool)
      requires Valid() && CellFixed(c) && CellOk(c) && TiledSlots(ids, bm.tiles, Slots(c)) && forall g | g in ids :: g / BITS < |bm.tiles|
      modifies this`owner, bm`tiles, bm.allocWords, bm.nextActive, bm.onList, c`head, c`spans
      modifies pool.Repr(), table.entries, arena
      ensures Valid() && CellOk(c) && TiledSlots(ids, bm.tiles, Slots(c))
      ensures n > 0 ==> x in c.spans && FullIn(bm.allocWords[..], bm.tiles, x, WORDS_PER_SPAN)
      ensures n == 0 ==> c.spans == old(c.spans) && bm.allocWords[..] == old(bm.allocWords[..]) && bm.tiles == old(bm.tiles)
      ensures n == 0 ==> Ahead(arena.cursor) == {} && (busy || NoInterval(pool.Free(), SpansWanted(c, batch)))
    {
      hide SpanPools.SpanPool.Valid, WordsOk;
      ghost var k, count, xs, t0 := 0, 0, c.spans, bm.tiles;
      x := 0;
      n, x, k, busy, count := CentralCarve(c, batch);
      StillTiled(ids, t0, bm.tiles, Slots(c));
      if n > 0 { FrontOfList(c.spans, x, k, xs, bm.allocWords[..], bm.tiles); }
    }

    /** One round of the loop: nothing when the carve made nothing, else at least one more object. */
    method CarveAndTake(c: CentralList, room: nat, batch: nat, out0: seq<nat>, ghost ids0: seq<nat>, ghost k0: seq<Word>)
      returns (n: nat, out: seq<nat>, ghost ids: seq<nat>, busy: bool)
      requires Valid() && CellFixed(c) && CellOk(c) && |out0| < room && Filling(c, room, out0, ids0, k0)
      modifies this`owner, bm`tiles, bm`held, bm`kept, bm.freeWords, bm.allocWords, bm.nextActive, bm.onList, c`head, c`spans, c`reuseHint
      modifies pool.Repr(), table.entries, arena
      ensures Valid() && CellOk(c) && Filling(c, room, out, ids, k0)
      ensures n > 0 ==> |out| > |out0|
      ensures n == 0 ==> out == out0 && Ahead(arena.cursor) == {} && (busy || NoInterval(pool.Free(), SpansWanted(c, batch)))
    {
      hide SpanPools.SpanPool.Valid, WordsOk;
      ghost var x := 0;
      out, ids := out0, ids0;
      n, x, busy := CarveSome(c, batch, ids0);
      if n > 0 {
        out, ids := TakeMore(c, room, out0, ids0, k0, x);
      }
    }

    // --- reclaim -------------------------------------------------------------------

    /** Take entry `k` off the cell's list, and forget a hint that names it. */
    method Unlist(c: CentralList, span: nat, prev: nat, ghost k: nat)
      requires Fixed() && bm.Shape() && ListOk(bm.nextActive[..], bm.onList[..], c.head, c.spans)
      requires k < |c.spans| && c.spans[k] == span < bm.numSpans && prev == SpanPools.PrevIn(c.spans, k)
      modifies bm.nextActive, bm.onList, c
      ensures ListOk(bm.nextActive[..], bm.onList[..], c.head, c.spans) && c.spans == SpanPools.Without(old(c.spans), k)
      ensures c.reuseHint == if old(c.reuseHint) == span then NO_SPAN else old(c.reuseHint)
      ensures !bm.onList[..][span]
      ensures LinksKept(old(bm.nextActive[..]), bm.nextActive[..], old(bm.onList[..]), bm.onList[..], old(c.spans))
    {
      c.head := bm.UnlinkActive(span, prev, c.head, c.spans, k);
      c.spans := SpanPools.Without(c.spans, k);
      if c.reuseHint == span {
        c.reuseHint := NO_SPAN;
      }
    }

    /** Take an empty span off the cell's list, mark its group retired in the table and forget its tiling. */
    method RetireSpan(c: CentralList, span: nat, prev: nat, ghost k: nat)
      requires Fixed() && bm.Valid() && |owner| == bm.numSpans && table.Valid() && CellFixed(c) && CellOk(c)
      requires k < |c.spans| && c.spans[k] == span && prev == SpanPools.PrevIn(c.spans, k)
      requires span + Group(c) <= bm.numSpans && bm.NoneOut(bm.held, span)
      modifies bm`held, bm`tiles, bm.freeWords, bm.allocWords, bm.nextActive, bm.onList, table.entries, c
      ensures bm.Valid() && CellOk(c) && c.spans == SpanPools.Without(old(c.spans), k)
      ensures c.reuseHint == if old(c.reuseHint) == span then NO_SPAN else old(c.reuseHint)
      ensures !bm.onList[..][span] && TiledIn(bm.tiles, span, 0) && Tags() == Retagged(old(Tags()), span, Group(c), (LARGE_CLASS, 0))
      ensures ElsewhereSame(old(bm.tiles), bm.tiles, span) && LinksKept(old(bm.nextActive[..]), bm.nextActive[..], old(bm.onList[..]), bm.onList[..], old(c.spans))
      ensures Returned(old(bm.held), bm.held) && (bm.quiet ==> bm.held == old(bm.held))
    {
      ghost var xs, tags, t0 := c.spans, Tags(), bm.tiles;
      WordsSuffice(Size(c));
      assert span in xs && bm.Tiled(span, Slots(c));
      hide Sized, Heads, Named, ListOk, LinksKept, WordsOk, ElsewhereSame;
      Unlist(c, span, prev, k);
      AssignRun(span, Group(c), LARGE_CLASS, 0);
      bm.ResetBitmaps(span, WordsFor(c), Slots(c));
      RetiredFromCell(xs, k, tags, owner, t0, bm.tiles, span, Group(c), Slots(c), c.cls, c.shard);
    }

    /** Retire the next span of the list, found empty. */
    method SweepEmpty(c: CentralList, span: nat, prev: nat, ghost xs: seq<nat>, ghost k: nat, ghost left: seq<nat>,
                      ghost taken: seq<nat>, ghost h0: seq<Word>)
      requires Fixed() && bm.Valid() && |owner| == bm.numSpans && table.Valid() && CellFixed(c) && CellOk(c) && Whole(c)
      requires k < |xs| && span == xs[k] && prev == (if left == [] then NO_SPAN else left[|left| - 1])
      requires SweptTo(c.spans, xs, k, left, taken, h0) && RetiredAll(taken, bm.onList[..], bm.tiles)
      requires span < bm.numSpans && bm.NoneOut(bm.held, span)
      modifies bm`held, bm`tiles, bm.freeWords, bm.allocWords, bm.nextActive, bm.onList, table.entries, c
      ensures bm.Valid() && CellOk(c) && Whole(c) && Returned(old(bm.held), bm.held) && (bm.quiet ==> bm.held == old(bm.held))
      ensures SweptTo(c.spans, xs, k + 1, left, taken + [span], h0)
      ensures RetiredAll(taken + [span], bm.onList[..], bm.tiles)
      ensures TagsRetired(old(Tags()), Tags()) && ElsewhereSame(old(bm.tiles), bm.tiles, span)
      ensures LinksKept(old(bm.nextActive[..]), bm.nextActive[..], old(bm.onList[..]), bm.onList[..], old(c.spans))
    {
      ghost var j, ys, on1, t1 := |left|, c.spans, bm.onList[..], bm.tiles;
      assert ys[j] == span && span in ys;
      ListedOn(bm.nextActive[..], on1, c.head, ys);
      assert OwnedBy(owner, span + Group(c) - 1, span);
      RetaggedRetires(Tags(), span, Group(c));
      RetireSpan(c, span, prev, j);
      SweptTaken(ys, xs, k, left, taken, h0);
      RetiredMore(taken, xs, k, span, on1, bm.onList[..], t1, bm.tiles, ys);
      forall y | y in c.spans ensures y in ys {
        var i :| 0 <= i < |c.spans| && c.spans[i] == y;
      }
    }

    /** Look at the next span of the list: retire it if it is empty. */
    method SweepNext(c: CentralList, span: nat, prev: nat, ghost xs: seq<nat>, ghost k: nat, ghost left: seq<nat>,
                     ghost taken: seq<nat>, ghost h0: seq<Word>)
      returns (empty: bool)
      requires Fixed() && bm.Valid() && |owner| == bm.numSpans && table.Valid() && CellFixed(c) && CellOk(c) && Whole(c)
      requires k < |xs| && span == xs[k] && prev == (if left == [] then NO_SPAN else left[|left| - 1])
      requires SweptTo(c.spans, xs, k, left, taken, h0) && RetiredAll(taken, bm.onList[..], bm.tiles)
      requires Returned(h0, bm.held)
      modifies bm`held, bm`kept, bm`tiles, bm.freeWords, bm.allocWords, bm.nextActive, bm.onList, table.entries, c
      ensures bm.Valid() && CellOk(c) && Whole(c) && (bm.quiet ==> bm.held == old(bm.held))
      ensures Returned(h0, bm.held) && Returned(old(bm.held), bm.held)
      ensures SweptTo(c.spans, xs, k + 1, if empty then left else left + [span], if empty then taken + [span] else taken, h0)
      ensures RetiredAll(if empty then taken + [span] else taken, bm.onList[..], bm.tiles)
      ensures TagsRetired(old(Tags()), Tags()) && LinksKept(old(bm.nextActive[..]), bm.nextActive[..], old(bm.onList[..]), bm.onList[..], old(c.spans))
      ensures if empty then NoneOutIn(bm.held, span) && ElsewhereSame(old(bm.tiles), bm.tiles, span) else bm.tiles == old(bm.tiles)
    {
      hide SweptTo, RetiredAll, TagsRetired, LinksKept, WordsOk;
      ghost var ys := c.spans;
      SweptEntry(ys, xs, k, left, taken, h0);
      empty := bm.IsFullyFree(span, Slots(c));
      if empty {
        SweepEmpty(c, span, prev, xs, k, left, taken, h0);
      } else {
        NothingChanged(Tags(), bm.nextActive[..], bm.onList[..], ys);
        SweptLeft(ys, xs, k, left, taken, h0);
      }
    }

    /** One turn of the walk. */
    method SweepOne(c: CentralList, span: nat, prev: nat, ghost xs: seq<nat>, ghost k: nat, ghost left: seq<nat>,
                    taken: seq<nat>, ghost z: Snapshot)
      returns (next: nat, prev2: nat, taken2: seq<nat>, ghost left2: seq<nat>)
      requires Fixed() && bm.Valid() && |owner| == bm.numSpans && table.Valid() && CellFixed(c) && CellOk(c) && Whole(c)
      requires k < |xs| && span == xs[k] && prev == (if left == [] then NO_SPAN else left[|left| - 1])
      requires Swept(z, Now(), c.spans, xs, k, left, taken)
      modifies bm`held, bm`kept, bm`tiles, bm.freeWords, bm.allocWords, bm.nextActive, bm.onList, table.entries, c
      ensures bm.Valid() && CellOk(c) && Whole(c) && (bm.quiet ==> bm.held == old(bm.held))
      ensures |taken| <= |taken2| <= |taken| + 1 && Swept(z, Now(), c.spans, xs, k + 1, left2, taken2)
      ensures next == (if k + 1 < |xs| then xs[k + 1] else NO_SPAN)
      ensures prev2 == (if left2 == [] then NO_SPAN else left2[|left2| - 1])
    {
      hide Swept, SweptTo, RetiredAll, TagsRetired, LinksKept, Returned, WordsOk;
      ghost var ys, z1 := c.spans, Now();
      SweptHere(z, z1, ys, xs, k, left, taken);
      assert LinkOk(bm.nextActive[..], bm.onList[..], ys, |left|);
      next := bm.nextActive[span];
      var empty := SweepNext(c, span, prev, xs, k, left, taken, z.held);
      prev2, taken2, left2 := if empty then prev else span, if empty then taken + [span] else taken, if empty then left else left + [span];
      SweptMore(z, z1, Now(), c.spans, ys, xs, k, left, taken, span, empty);
    }

    /** What a sweep compares: the slots that are out, tilings, table entries and links. */
    ghost function Now(): Snapshot
      requires Fixed() && bm.Shape()
      reads this, bm, bm.nextActive, bm.onList, table.entries
    {
      Snapshot(bm.held, bm.tiles, Tags(), bm.nextActive[..], bm.onList[..])
    }

    /** Walk the list under the lock, retiring empty spans until there are `limit` of them. */
    method SweepList(c: CentralList, limit: nat) returns (taken: seq<nat>, ghost left: seq<nat>, ghost k: nat)
      requires Fixed() && bm.Valid() && |owner| == bm.numSpans && table.Valid() && CellFixed(c) && CellOk(c) && Whole(c)
      modifies bm`held, bm`kept, bm`tiles, bm.freeWords, bm.allocWords, bm.nextActive, bm.onList, table.entries, c
      ensures bm.Valid() && CellOk(c) && Whole(c) && (bm.quiet ==> bm.held == old(bm.held))
      ensures |taken| <= limit && Swept(old(Now()), Now(), c.spans, old(c.spans), k, left, taken)
      ensures |taken| < limit ==> k == |old(c.spans)|
    {
      hide Swept;
      ghost var xs, z := c.spans, Now();
      var prev, span := NO_SPAN, c.head;
      taken, left, k := [], [], 0;
      SweptStart(z, c.head, xs);
      while span != NO_SPAN && |taken| < limit
        invariant bm.Valid() && CellOk(c) && Whole(c) && (bm.quiet ==> bm.held == z.held)
        invariant |taken| <= limit && k <= |xs| && Swept(z, Now(), c.spans, xs, k, left, taken)
        invariant span == (if k < |xs| then xs[k] else NO_SPAN)
        invariant prev == (if left == [] then NO_SPAN else left[|left| - 1])
        decreases |xs| - k
      {
        span, prev, taken, left := SweepOne(c, span, prev, xs, k, left, taken, z);
        k := k + 1;
      }
      AtEnd(z, Now(), c.head, c.spans, xs, k, left, taken);
    }

    /** File one retired run into the pool. */
    method FileOne(y: nat, g: nat)
      requires Valid() && g >= 1 && y + g <= bm.numSpans && WholeIn([y], owner, g)
      requires TiledIn(bm.tiles, y, 0) && !bm.onList[..][y]
      modifies this`owner, pool.Repr()
      ensures Valid() && owner == Disowned(old(owner), y, g) && pool.Free() == old(pool.Free()) + Range(y, g)
    {
      ghost var spare := Spare();
      forall i: nat | y <= i < y + g ensures i !in spare {
        assert OwnedBy(owner, i, y);
      }
      pool.Release(y, g);
      FiledOwner(owner, bm.tiles, bm.onList[..], spare, y, g);
      owner := Disowned(owner, y, g);
      assert Spare() == spare + Range(y, g);
    }

    /** File the retired runs. */
    method FileRuns(taken: seq<nat>, g: nat)
      requires Valid() && g >= 1 && WholeIn(taken, owner, g) && SpanPools.Distinct(taken)
      requires RetiredAll(taken, bm.onList[..], bm.tiles)
      modifies this`owner, pool.Repr()
      ensures Valid() && OwnersFreed(old(owner), owner, taken)
      ensures forall i: nat :: i in pool.Free() <==> i in old(pool.Free()) || InSome(taken, g, i)
    {
      var j := 0;
      while j < |taken|
        invariant j <= |taken| && Valid() && WholeIn(taken[j..], owner, g) && OwnersFreed(old(owner), owner, taken[..j])
        invariant forall i: nat :: i in pool.Free() <==> i in old(pool.Free()) || InSome(taken[..j], g, i)
      {
        ghost var o1, f1 := owner, pool.Free();
        assert taken[j] in taken && taken[j..][0] == taken[j];
        assert OwnedBy(owner, taken[j] + g - 1, taken[j]);
        FileOne(taken[j], g);
        FiledMore(old(owner), o1, owner, taken, j, g, old(pool.Free()), f1, pool.Free());
        j := j + 1;
      }
      assert taken[..j] == taken;
    }

    /** Retire up to `cap` empty spans of one cell, at most 32, and file them into the pool. `busy` is the cell's
        lock not being free. Every group on the list must have all its spans. The spans retired had no slot
        out; they leave the list, which otherwise keeps its order; and short of the limit, no span that was
        empty when the walk began stays. */
    method ReclaimCell(c: CentralList, cap: nat) returns (n: nat, busy: bool, ghost taken: seq<nat>)
      requires Valid() && CellFixed(c) && CellOk(c) && Whole(c)
      modifies this`owner, bm`held, bm`kept, bm`tiles, bm.freeWords, bm.allocWords, bm.nextActive, bm.onList
      modifies table.entries, c, pool.Repr()
      ensures Valid() && CellOk(c) && Whole(c) && (bm.quiet ==> bm.held == old(bm.held))
      ensures n == |taken| <= cap && n <= 32 && SpanPools.Distinct(taken) && (busy ==> n == 0 && !bm.quiet)
      ensures Reclaimed(old(c.spans), c.spans, taken, old(bm.held), bm.held)
      ensures !busy && n < cap && n < 32 ==> forall x | x in c.spans :: !NoneOutIn(old(bm.held), x)
      ensures forall i: nat :: i in pool.Free() <==> i in old(pool.Free()) || InSome(taken, Group(c), i)
      ensures OthersUntouched(old(Now()), Now(), old(owner), owner, old(c.spans), taken)
      ensures RetiredAll(taken, bm.onList[..], bm.tiles)
    {
      hide SpanPools.SpanPool.Valid, WordsOk, Reclaimed, OthersUntouched;
      n, taken := 0, [];
      busy := *;
      busy := busy && !bm.quiet;
      if cap == 0 || busy {
        ReclaimedNone(Now(), owner, c.spans);
        return;
      }
      var got := CollectEmpty(c, if cap < 32 then cap else 32);
      taken := got;
      if |got| == 0 {
        return;
      }
      ghost var o0, z := owner, Now();
      FileCell(c, got);
      UntouchedOn(old(Now()), z, o0, owner, old(c.spans), got);
      n := |got|;
    }

    /** The part after the lock is dropped. */
    method FileCell(c: CentralList, taken: seq<nat>)
      requires Valid() && CellFixed(c) && CellOk(c) && Whole(c) && SpanPools.Distinct(taken)
      requires WholeIn(taken, owner, Group(c)) && RetiredAll(taken, bm.onList[..], bm.tiles)
      modifies this`owner, pool.Repr()
      ensures Valid() && CellOk(c) && Whole(c) && OwnersFreed(old(owner), owner, taken)
      ensures Now() == old(Now()) && bm.held == old(bm.held) && c.spans == old(c.spans)
      ensures forall i: nat :: i in pool.Free() <==> i in old(pool.Free()) || InSome(taken, Group(c), i)
    {
      hide SpanPools.SpanPool.Valid, WordsOk;
      ghost var o0 := owner;
      ListedOn(bm.nextActive[..], bm.onList[..], c.head, c.spans);
      FileRuns(taken, Group(c));
      assert Now() == old(Now());
      FiledCell(c.spans, o0, owner, bm.tiles, taken, Slots(c), Group(c));
    }

    /** The part of a reclaim under the cell's lock. */
    method CollectEmpty(c: CentralList, limit: nat) returns (taken: seq<nat>)
      requires Valid() && CellFixed(c) && CellOk(c) && Whole(c)
      modifies bm`held, bm`kept, bm`tiles, bm.freeWords, bm.allocWords, bm.nextActive, bm.onList, table.entries, c
      ensures Valid() && CellOk(c) && Whole(c) && (bm.quiet ==> bm.held == old(bm.held))
      ensures |taken| <= limit && SpanPools.Distinct(taken) && WholeIn(taken, owner, Group(c))
      ensures RetiredAll(taken, bm.onList[..], bm.tiles)
      ensures Reclaimed(old(c.spans), c.spans, taken, old(bm.held), bm.held)
      ensures |taken| < limit ==> forall x | x in c.spans :: !NoneOutIn(old(bm.held), x)
      ensures OthersUntouched(old(Now()), Now(), owner, owner, old(c.spans), taken)
    {
      ghost var left, k, xs, z0 := [], 0, c.spans, Now();
      taken, left, k := SweepList(c, limit);
      assert Stocked();
      SweptSummary(z0, Now(), c.spans, xs, k, left, taken, owner, Slots(c), Group(c));
    }

    // --- the sweep over all cells ------------------------------------------------------

    ghost function ViewOf(c: CentralList): View
      requires Fixed() && CellFixed(c)
      reads c
    {
      View(c.head, c.spans, Slots(c), Group(c), c.cls, c.shard)
    }

    ghost function Views(cells: seq<CentralList>): (r: seq<View>)
      requires Fixed() && forall j | 0 <= j < |cells| :: CellFixed(cells[j])
      reads cells
      ensures |r| == |cells| && forall j | 0 <= j < |cells| :: r[j] == ViewOf(cells[j])
    {
      seq(|cells|, j requires 0 <= j < |cells| && CellFixed(cells[j]) reads cells => ViewOf(cells[j]))
    }

    /** Distinct cells, each right, and no span on two lists. */
    ghost predicate AllGood(cells: seq<CentralList>)
      reads this, bm, bm.nextActive, bm.onList, cells, table.entries
    {
      && Fixed() && bm.Shape() && (forall j | 0 <= j < |cells| :: CellFixed(cells[j]) && cells[j] !in pool.Repr())
      && (forall i, j | 0 <= i < j < |cells| :: cells[i] != cells[j])
      && GoodViews(Views(cells), Now(), owner)
    }

    lemma ListDistinct(c: CentralList)
      requires Fixed() && CellFixed(c) && CellOk(c)
      ensures SpanPools.Distinct(c.spans)
    {
    }

    /** A cell with nothing on its list, in a table that names no class. */
    lemma EmptyCell(c: CentralList)
      requires Valid() && CellFixed(c) && c.spans == [] && c.head == NO_SPAN && forall p: nat :: table.Lookup(p) == None
      ensures Fixed() && bm.Shape() && CellOk(c)
    {
    }

    /** What a carve for `n` objects of the span's own size takes of an arena of `n` spans. */
    lemma TakesAll(c: CentralList, n: nat)
      requires Fixed() && CellFixed(c) && Size(c) == SPAN_BYTES && arena.end == n * SPAN_BYTES && n > 0
      ensures SpansWanted(c, n) == Left(n, 0) == n && Group(c) == 1 && NoInterval({}, n)
    {
      assert Arena.SpansLeft(arena.end, 0) == n;
      forall h: nat ensures !(Range(h, n) <= {}) {
        assert h in Range(h, n);
      }
    }

    /** After a carve into an empty cell of a class no larger than a span, the cell is good by itself, and all
        its spans are empty if nothing is out. */
    lemma OneGood(c: CentralList, start: nat, k: nat, a0: seq<Word>, o0: seq<nat>)
      requires Valid() && CellFixed(c) && CellOk(c) && c !in pool.Repr() && Group(c) == 1 && k > 0
      requires CarvedTo(c.spans, bm.allocWords[..], bm.tiles, owner, start, start + k, [], a0, o0, 1)
      requires forall i: nat | i < |bm.held| :: bm.held[i] == {}
      ensures AllGood([c]) && |Empties(c.spans, bm.held)| == k
    {
      hide SpanPools.SpanPool.Valid, WordsOk, ListOk, Heads, Named, Bare, Unowned, FullRange;
      assert Views([c]) == [ViewOf(c)];
      ListDistinct(c);
      MembersCount(c.spans);
      assert Empties(c.spans, bm.held) == Members(c.spans);
    }

    /** A reclaim of one cell leaves the others right. */
    method ReclaimOneOf(cells: seq<CentralList>, i: nat, cap: nat) returns (n: nat, busy: bool, ghost taken: seq<nat>)
      requires Valid() && AllGood(cells) && i < |cells|
      modifies this`owner, bm`held, bm`kept, bm`tiles, bm.freeWords, bm.allocWords, bm.nextActive, bm.onList
      modifies table.entries, cells[i], pool.Repr()
      ensures Valid() && AllGood(cells) && (bm.quiet ==> bm.held == old(bm.held))
      ensures n == |taken| <= cap && n <= 32 && SpanPools.Distinct(taken) && (busy ==> n == 0 && !bm.quiet)
      ensures Reclaimed(old(cells[i].spans), cells[i].spans, taken, old(bm.held), bm.held)
      ensures !busy && n < cap && n < 32 ==> forall x | x in cells[i].spans :: !NoneOutIn(old(bm.held), x)
      ensures forall j | 0 <= j < |cells| && j != i :: cells[j].spans == old(cells[j].spans)
      ensures Shed(old(cells[i].spans), cells[i].spans, n, Group(cells[i]), old(pool.Free()), pool.Free())
    {
      hide SpanPools.SpanPool.Valid, WordsOk, ListOk, Heads, Named, WholeIn, Bare, Unowned, GoodViews, Reclaimed, OthersUntouched, RetiredAll;
      ghost var z0, o0, vs := Now(), owner, Views(cells);
      GoodAt(vs, z0, o0, i);
      n, busy, taken := ReclaimCell(cells[i], cap);
      assert forall j | 0 <= j < |cells| && j != i :: ViewOf(cells[j]) == vs[j];
      assert Views(cells) == vs[i := ViewOf(cells[i])];
      ReclaimedMembers(vs[i].spans, cells[i].spans, taken, z0.held, bm.held);
      OthersGood(vs, i, ViewOf(cells[i]), z0, Now(), o0, owner, taken);
      TakenShed(vs[i].spans, cells[i].spans, taken, z0.held, bm.held, Group(cells[i]), old(pool.Free()), pool.Free());
    }

    lemma GoodFixed(cells: seq<CentralList>)
      requires AllGood(cells)
      ensures Fixed() && forall j | 0 <= j < |cells| :: CellFixed(cells[j])
    {
    }

    /** Reclaim from one cell until a reclaim comes back short. The loop ends, the list being shorter each
        time. Undisturbed, it leaves no empty span on the list if and only if the cap is at most the 32
        spans a reclaim can collect, or there were no more than 32. */
    method SweepCell(cells: seq<CentralList>, i: nat, cap: nat) returns (total: nat)
      requires Valid() && AllGood(cells) && i < |cells| && cap >= 1
      modifies this`owner, bm`held, bm`kept, bm`tiles, bm.freeWords, bm.allocWords, bm.nextActive, bm.onList
      modifies table.entries, cells[i], pool.Repr()
      ensures Valid() && AllGood(cells) && (bm.quiet ==> bm.held == old(bm.held))
      ensures forall j | 0 <= j < |cells| && j != i :: cells[j].spans == old(cells[j].spans)
      ensures Shed(old(cells[i].spans), cells[i].spans, total, Group(cells[i]), old(pool.Free()), pool.Free())
      ensures bm.quiet ==>
                && |Empties(cells[i].spans, bm.held)| + total == |Empties(old(cells[i].spans), bm.held)|
                && (Empties(cells[i].spans, bm.held) == {} <==> cap <= 32 || |Empties(old(cells[i].spans), bm.held)| <= 32)
    {
      hide SpanPools.SpanPool.Valid, WordsOk, ListOk, Heads, Named, WholeIn, Bare, Unowned, GoodViews, Reclaimed, Shed, AllGood;
      total := 0;
      var done := false;
      ghost var e0, xs0, f0 := |Empties(cells[i].spans, bm.held)|, cells[i].spans, pool.Free();
      GoodFixed(cells);
      ghost var g := Group(cells[i]);
      ShedNone(xs0, g, f0);
      while !done
        invariant Valid() && AllGood(cells) && (bm.quiet ==> bm.held == old(bm.held))
        invariant forall j | 0 <= j < |cells| && j != i :: cells[j].spans == old(cells[j].spans)
        invariant Shed(xs0, cells[i].spans, total, g, f0, pool.Free())
        invariant bm.quiet ==> |Empties(cells[i].spans, bm.held)| + total == e0
        invariant !done && total > 0 ==> cap <= 32
        invariant bm.quiet && done ==> (Empties(cells[i].spans, bm.held) == {} <==> cap <= 32 || e0 <= 32)
        decreases |cells[i].spans|, !done
      {
        ghost var xs, h, f := cells[i].spans, bm.held, pool.Free();
        ghost var taken;
        var n, busy;
        n, busy, taken := ReclaimOneOf(cells, i, cap);
        ReclaimedFewer(xs, cells[i].spans, taken, h, bm.held);
        ShedMore(xs0, xs, cells[i].spans, total, n, g, f0, f, pool.Free());
        total := total + n;
        done := n < cap;
      }
    }

    ghost function ListsOf(cells: seq<CentralList>): (r: seq<seq<nat>>)
      reads cells
      ensures |r| == |cells| && forall j | 0 <= j < |cells| :: r[j] == cells[j].spans
    {
      seq(|cells|, j requires 0 <= j < |cells| reads cells => cells[j].spans)
    }

    ghost function GroupsOf(cells: seq<CentralList>): (r: seq<nat>)
      requires Fixed() && forall j | 0 <= j < |cells| :: CellFixed(cells[j])
      ensures |r| == |cells| && forall j | 0 <= j < |cells| :: r[j] == Group(cells[j])
    {
      seq(|cells|, j requires 0 <= j < |cells| => Group(cells[j]))
    }

    /** One cell of the sweep over all, begun with lists `xss` and pool `f0`. */
    method SweepAt(cells: seq<CentralList>, i: nat, cap: nat, ghost xss: seq<seq<nat>>, ghost f0: set<nat>, ghost reclaimed: nat) returns (n: nat)
      requires Valid() && AllGood(cells) && i < |cells| == |xss| && cap >= 1 && xss[i] == cells[i].spans
      requires ShedAll(xss, ListsOf(cells), reclaimed, GroupsOf(cells), f0, pool.Free())
      modifies this`owner, bm`held, bm`kept, bm`tiles, bm.freeWords, bm.allocWords, bm.nextActive, bm.onList
      modifies table.entries, cells[i], pool.Repr()
      ensures Valid() && AllGood(cells) && (bm.quiet ==> bm.held == old(bm.held))
      ensures forall j | 0 <= j < |cells| && j != i :: cells[j].spans == old(cells[j].spans)
      ensures ShedAll(xss, ListsOf(cells), reclaimed + n, GroupsOf(cells), f0, pool.Free())
      ensures bm.quiet ==> (Empties(cells[i].spans, bm.held) == {} <==> cap <= 32 || |Empties(xss[i], bm.held)| <= 32)
    {
      hide SpanPools.SpanPool.Valid, WordsOk, ListOk, Heads, Named, WholeIn, Bare, Unowned, GoodViews, Shed, ShedAll;
      ghost var yss, f1 := ListsOf(cells), pool.Free();
      n := SweepCell(cells, i, cap);
      ShedAllMore(xss, yss, reclaimed, GroupsOf(cells), f0, f1, pool.Free(), i, cells[i].spans, n);
      assert ListsOf(cells) == yss[i := cells[i].spans];
    }

    /** The sweep over every cell: `max` spans at a time, at least one. It counts the spans that leave the lists,
        and the pool gains exactly their groups. */
    method ReclaimEmptySpans(cells: seq<CentralList>, max: nat) returns (reclaimed: nat)
      requires Valid() && AllGood(cells)
      modifies this`owner, bm`held, bm`kept, bm`tiles, bm.freeWords, bm.allocWords, bm.nextActive, bm.onList
      modifies table.entries, cells, pool.Repr()
      ensures Valid() && AllGood(cells) && (bm.quiet ==> bm.held == old(bm.held))
      ensures ShedAll(old(ListsOf(cells)), ListsOf(cells), reclaimed, GroupsOf(cells), old(pool.Free()), pool.Free())
      ensures bm.quiet ==> forall j | 0 <= j < |cells| ::
                Empties(cells[j].spans, bm.held) == {} <==> max <= 32 || |Empties(old(cells[j].spans), bm.held)| <= 32
    {
      hide SpanPools.SpanPool.Valid, WordsOk, ListOk, Heads, Named, WholeIn, Bare, Unowned, GoodViews, Shed, ShedAll, AllGood;
      hide SubHeap.Valid, SubHeap.Fixed, Empties, NoneOutIn;
      var cap := if max == 0 then 1 else max;
      reclaimed := 0;
      GoodFixed(cells);
      ghost var xss, gs, f0, h0 := ListsOf(cells), GroupsOf(cells), pool.Free(), bm.held;
      ShedNoneAll(xss, gs, f0);
      var i := 0;
      while i < |cells|
        invariant i <= |cells| && Valid() && AllGood(cells) && (bm.quiet ==> bm.held == h0)
        invariant forall j | i <= j < |cells| :: cells[j].spans == xss[j]
        invariant ShedAll(xss, ListsOf(cells), reclaimed, gs, f0, pool.Free())
        invariant bm.quiet ==> forall j | 0 <= j < i :: Empties(cells[j].spans, h0) == {} <==> cap <= 32 || |Empties(xss[j], h0)| <= 32
      {
        GoodFixed(cells);
        assert gs == GroupsOf(cells);
        var n := SweepAt(cells, i, cap, xss, f0, reclaimed);
        reclaimed := reclaimed + n;
        i := i + 1;
      }
    }

  }

  /** The slots of span `h` come first, and others only if `h` has no more, which `dry` says. */
  ghost predicate HintFirst(ids: seq<nat>, h: nat, room: nat, dry: bool) {
    && (forall i, j | 0 <= i < j < |ids| && ids[j] / SPAN_SLOTS == h :: ids[i] / SPAN_SLOTS == h)
    && ((exists j :: 0 <= j < |ids| && ids[j] / SPAN_SLOTS != h) || |ids| < room ==> dry)
  }

  lemma HintThenOthers(first: seq<nat>, ids: seq<nat>, h: nat, room: nat, dry: bool)
    requires first <= ids && |first| <= room && (|first| < room ==> dry) && (|first| == room ==> ids == first)
    requires forall j | 0 <= j < |first| :: first[j] / SPAN_SLOTS == h
    requires forall j | |first| <= j < |ids| :: ids[j] / SPAN_SLOTS != h
    ensures HintFirst(ids, h, room, dry)
  {
  }

  /** The slots of the spans `xs` whose bits are set in the private words `a`. */
  ghost function PrivateSlots(xs: seq<nat>, a: seq<Word>): set<nat> {
    set g: nat | g < |a| * BITS && InAt(a, g) && g / SPAN_SLOTS in xs
  }

  /** The slots of the spans `xs` that are tiled, by `t`, and not out, by `h`. */
  ghost function FreeSlots(xs: seq<nat>, h: seq<Word>, t: seq<Word>): set<nat> {
    set g: nat | g < |t| * BITS && InAt(t, g) && !InAt(h, g) && g / SPAN_SLOTS in xs
  }

  ghost predicate InAt(a: seq<Word>, g: nat) {
    g / BITS < |a| && g % BITS in a[g / BITS]
  }

  /** The word and bit of slot `g` of a span tiled for `slots` slots. */
  lemma WordOfSlot(g: nat, t: seq<Word>, slots: nat, n: nat)
    requires InAt(t, g) && TiledIn(t, g / SPAN_SLOTS, slots) && slots <= n * BITS && n <= WORDS_PER_SPAN
    ensures exists w: nat :: w < n && g / BITS == WordIndex(g / SPAN_SLOTS, w)
  {
    var x, w := g / SPAN_SLOTS, g % SPAN_SLOTS / BITS;
    assert g / BITS == WordIndex(x, w) && w < WORDS_PER_SPAN;
    assert g % BITS in SlotWord(slots, w);
  }

  lemma PrivateTaken(xs: seq<nat>, a0: seq<Word>, a1: seq<Word>, k0: seq<Word>, k1: seq<Word>, t: seq<Word>, ids: seq<nat>,
                     done: set<nat>, slots: nat, n: nat)
    requires Took(a0, a1, k0, k1, ids, done, slots) && AllDrained(a1, Members(xs), n) && |t| == |a0| && (forall x | x in xs :: TiledIn(t, x, slots))
    requires slots <= n * BITS && n <= WORDS_PER_SPAN && forall i: nat | i < |a0| :: a0[i] <= t[i]
    ensures PrivateSlots(xs, a0) <= Members(ids)
  {
    forall g | g in PrivateSlots(xs, a0) ensures g in Members(ids) {
      var x, i, b := g / SPAN_SLOTS, g / BITS, g % BITS;
      WordOfSlot(g, t, slots, n);
      assert Drained(a1, x, n) && a1[i] == {} && a0[i] <= a1[i] + (k1[i] - k0[i]);
      assert InWord(k1, i, b) && !InWord(k0, i, b);
    }
  }

  lemma FreeTaken(xs: seq<nat>, h0: seq<Word>, h1: seq<Word>, k0: seq<Word>, k1: seq<Word>, t: seq<Word>, ids: seq<nat>, slots: nat, n: nat)
    requires OutOnly(h0, h1, k0, k1) && Gained(k0, k1, ids) && AllOutIn(h1, t, Members(xs), n) && |t| == |h1|
    requires (forall x | x in xs :: TiledIn(t, x, slots)) && slots <= n * BITS && n <= WORDS_PER_SPAN
    ensures FreeSlots(xs, h0, t) <= Members(ids)
  {
    forall g | g in FreeSlots(xs, h0, t) ensures g in Members(ids) {
      var x, i, b := g / SPAN_SLOTS, g / BITS, g % BITS;
      WordOfSlot(g, t, slots, n);
      assert AllOut(h1, t, x, n) && h1[i] == t[i] && h1[i] <= h0[i] + (k1[i] - k0[i]);
      assert InWord(k1, i, b) && !InWord(k0, i, b);
    }
  }

  lemma {:induction false} ListCount(xs: seq<nat>)
    ensures |Members(xs)| <= |xs|
  {
    if xs != [] {
      var ys := xs[..|xs| - 1];
      ListCount(ys);
      assert xs == ys + [xs[|xs| - 1]] && Members(xs) == Members(ys) + {xs[|xs| - 1]};
    }
  }

  lemma CeilingOf(n: nat, d: nat)
    requires d > 0
    ensures var q := (n + d - 1) / d; n <= q * d && (n > 0 ==> (q - 1) * d < n)
  {
    var q, r := (n + d - 1) / d, (n + d - 1) % d;
    assert n + d - 1 == q * d + r && (q - 1) * d == q * d - d;
  }

  /** `xs` is `ys` with the `n` spans from `h` on put in front of it one by one. */
  ghost predicate PutInFront(xs: seq<nat>, h: nat, n: nat, ys: seq<nat>) {
    |xs| == n + |ys| && xs[n..] == ys && forall k | 0 <= k < n :: xs[k] == h + n - 1 - k
  }

  /** A take from a list with a wholly free span on it finds something. */
  lemma TakeFindsSome(a1: seq<Word>, a2: seq<Word>, k1: seq<Word>, k2: seq<Word>, t: seq<Word>, more: seq<nat>,
                      x: nat, xs: seq<nat>, extra: set<nat>, slots: nat, nwords: nat)
    requires Took(a1, a2, k1, k2, more, Members(xs) + extra, slots) && AllDrained(a2, Members(xs), nwords)
    requires x in xs && FullIn(a1, t, x, WORDS_PER_SPAN) && TiledIn(t, x, slots) && slots > 0 && nwords > 0
    requires WordIndex(x, 0) < |a1|
    ensures more != []
  {
    var i := WordIndex(x, 0);
    assert 0 in SlotWord(slots, 0) && 0 in a1[i];
    assert Drained(a2, x, nwords) && a2[i] == {};
    assert a1[i] <= a2[i] + (k2[i] - k1[i]);
    assert InWord(k2, i, 0) && !InWord(k1, i, 0);
  }

  lemma FrontOfList(xs: seq<nat>, start: nat, k: nat, ys: seq<nat>, a: seq<Word>, t: seq<Word>)
    requires PutInFront(xs, start, k, ys) && k > 0 && FullRange(start, start + k, a, t)
    ensures start in xs && FullIn(a, t, start, WORDS_PER_SPAN)
  {
    assert xs[k - 1] == start;
  }

  /** Slots of spans tiled for a class stay that while spans without slots are tiled. */
  lemma StillTiled(ids: seq<nat>, t0: seq<Word>, t1: seq<Word>, slots: nat)
    requires TiledSlots(ids, t0, slots) && KeepsTiled(t0, t1) && forall g | g in ids :: g / BITS < |t0|
    ensures TiledSlots(ids, t1, slots)
  {
    forall g | g in ids ensures TiledIn(t1, g / SPAN_SLOTS, slots) {
      var y := g / SPAN_SLOTS;
      assert WordIndex(y, 0) < |t0| && 0 in SlotWord(slots, 0) && !TiledIn(t0, y, 0);
      assert SameSpan(t0, t1, y);
    }
  }

  /** Links of spans that are not on the list are as they were. */
  ghost predicate LinksKept(n0: seq<nat>, n1: seq<nat>, on0: seq<bool>, on1: seq<bool>, xs: seq<nat>) {
    && |n0| == |n1| == |on0| == |on1|
    && forall x: nat {:trigger n1[x]} {:trigger on1[x]} | x < |n0| && x !in xs :: n1[x] == n0[x] && on1[x] == on0[x]
  }

  lemma RetiredFromCell(xs: seq<nat>, k: nat, tags: seq<Option<(nat, nat)>>, owner: seq<nat>, t0: seq<Word>, t1: seq<Word>,
                        span: nat, g: nat, slots: nat, cls: nat, shard: nat)
    requires k < |xs| && xs[k] == span && SpanPools.Distinct(xs) && g >= 1 && cls < LARGE_CLASS
    requires Heads(xs, owner, t0, slots) && Named(xs, tags, t0, cls, shard, slots)
    requires ElsewhereSame(t0, t1, span)
    ensures Heads(SpanPools.Without(xs, k), owner, t1, slots)
    ensures Named(SpanPools.Without(xs, k), Retagged(tags, span, g, (LARGE_CLASS, 0)), t1, cls, shard, slots)
  {
    var ys, tags2 := SpanPools.Without(xs, k), Retagged(tags, span, g, (LARGE_CLASS, 0));
    forall y | y in ys ensures y < |owner| && owner[y] == y && TiledIn(t1, y, slots) {
      var i :| 0 <= i < |ys| && ys[i] == y;
      var j := if i < k then i else i + 1;
      assert xs[j] == y && y in xs && y != span;
    }
    forall y | y in xs && y != span ensures y in ys {
      var j :| 0 <= j < |xs| && xs[j] == y;
      assert ys[if j < k then j else j - 1] == y;
    }
    forall h: nat | h < |tags2| && tags2[h].Some? && tags2[h].value.0 == cls
      ensures TiledIn(t1, h, 0) || (TiledIn(t1, h, slots) && (tags2[h].value.1 == shard ==> h in ys))
    {
      assert !(span <= h < span + g) && tags[h] == tags2[h];
    }
  }

  /** Table entries change only by being retired. */
  ghost predicate TagsRetired(tags0: seq<Option<(nat, nat)>>, tags1: seq<Option<(nat, nat)>>) {
    |tags0| == |tags1| && forall h: nat {:trigger tags1[h]} | h < |tags0| :: tags1[h] == tags0[h] || tags1[h] == Some((LARGE_CLASS, 0))
  }

  lemma RetaggedRetires(tags: seq<Option<(nat, nat)>>, h: nat, n: nat)
    ensures TagsRetired(tags, Retagged(tags, h, n, (LARGE_CLASS, 0)))
  {
  }

  ghost predicate NoneOutAll(taken: seq<nat>, held: seq<Word>) {
    forall y | y in taken :: NoneOutIn(held, y)
  }

  ghost predicate SameSpan(t0: seq<Word>, t1: seq<Word>, y: nat) {
    |t0| == |t1| && forall w: nat {:trigger WordIndex(y, w)} | w < WORDS_PER_SPAN && WordIndex(y, w) < |t0| ::
      t1[WordIndex(y, w)] == t0[WordIndex(y, w)]
  }

  /** Only the spans `taken` have lost their tiling. */
  ghost predicate TilesKept(t0: seq<Word>, t1: seq<Word>, taken: seq<nat>) {
    forall y: nat {:trigger SameSpan(t0, t1, y)} | y !in taken :: SameSpan(t0, t1, y)
  }

  lemma TilesKeptOn(t0: seq<Word>, t1: seq<Word>, t2: seq<Word>, taken: seq<nat>, span: nat)
    requires TilesKept(t0, t1, taken) && ElsewhereSame(t1, t2, span) && |t0| == |t1|
    ensures TilesKept(t0, t2, taken + [span])
  {
    forall y: nat | y !in taken + [span] ensures SameSpan(t0, t2, y) {
      assert SameSpan(t0, t1, y);
    }
  }

  datatype Snapshot = Snapshot(held: seq<Word>, tiles: seq<Word>, tags: seq<Option<(nat, nat)>>, next: seq<nat>, on: seq<bool>)

  /** What a sweep of a cell's list `xs` has done by the time it has looked at `k` spans: those of `taken` had no
      slot out and are retired, those `left` had one out, and nothing else has changed. */
  ghost predicate Swept(z0: Snapshot, z: Snapshot, ys: seq<nat>, xs: seq<nat>, k: nat, left: seq<nat>, taken: seq<nat>) {
    && SweptTo(ys, xs, k, left, taken, z0.held) && Returned(z0.held, z.held)
    && RetiredAll(taken, z.on, z.tiles) && NoneOutAll(taken, z.held) && TilesKept(z0.tiles, z.tiles, taken)
    && TagsRetired(z0.tags, z.tags) && LinksKept(z0.next, z.next, z0.on, z.on, xs) && |z0.tiles| == |z.tiles|
  }

  /** The list entry a sweep looks at next. */
  lemma SweptEntry(ys: seq<nat>, xs: seq<nat>, k: nat, left: seq<nat>, taken: seq<nat>, h0: seq<Word>)
    requires SweptTo(ys, xs, k, left, taken, h0) && k < |xs|
    ensures |left| < |ys| && ys[|left|] == xs[k] && xs[k] in ys
    ensures SpanPools.NextIn(ys, |left|) == if k + 1 < |xs| then xs[k + 1] else NO_SPAN
  {
  }

  lemma SweptHere(z0: Snapshot, z: Snapshot, ys: seq<nat>, xs: seq<nat>, k: nat, left: seq<nat>, taken: seq<nat>)
    requires Swept(z0, z, ys, xs, k, left, taken) && k < |xs|
    ensures SweptTo(ys, xs, k, left, taken, z0.held) && RetiredAll(taken, z.on, z.tiles) && Returned(z0.held, z.held)
    ensures |left| < |ys| && ys[|left|] == xs[k] && SpanPools.NextIn(ys, |left|) == if k + 1 < |xs| then xs[k + 1] else NO_SPAN
  {
    SweptEntry(ys, xs, k, left, taken, z0.held);
  }

  lemma SweptMore(z0: Snapshot, z1: Snapshot, z2: Snapshot, ys2: seq<nat>, ys: seq<nat>, xs: seq<nat>, k: nat, left: seq<nat>,
                  taken: seq<nat>, span: nat, empty: bool)
    requires Swept(z0, z1, ys, xs, k, left, taken)
    requires SweptTo(ys2, xs, k + 1, if empty then left else left + [span], if empty then taken + [span] else taken, z0.held)
    requires RetiredAll(if empty then taken + [span] else taken, z2.on, z2.tiles) && Returned(z0.held, z2.held) && Returned(z1.held, z2.held)
    requires TagsRetired(z1.tags, z2.tags) && LinksKept(z1.next, z2.next, z1.on, z2.on, ys)
    requires if empty then NoneOutIn(z2.held, span) && ElsewhereSame(z1.tiles, z2.tiles, span) else z1.tiles == z2.tiles
    ensures Swept(z0, z2, ys2, xs, k + 1, if empty then left else left + [span], if empty then taken + [span] else taken)
  {
    if empty { TilesKeptOn(z0.tiles, z1.tiles, z2.tiles, taken, span); }
    assert TagsRetired(z0.tags, z2.tags) by {
      forall h: nat | h < |z0.tags| ensures z2.tags[h] == z0.tags[h] || z2.tags[h] == Some((LARGE_CLASS, 0)) {
        assert z1.tags[h] == z0.tags[h] || z1.tags[h] == Some((LARGE_CLASS, 0));
      }
    }
  }

  lemma NothingChanged(tags: seq<Option<(nat, nat)>>, n: seq<nat>, on: seq<bool>, ys: seq<nat>)
    requires |n| == |on|
    ensures TagsRetired(tags, tags) && LinksKept(n, n, on, on, ys)
  {
  }

  lemma SweptStart(z: Snapshot, head: nat, xs: seq<nat>)
    requires ListOk(z.next, z.on, head, xs)
    ensures Swept(z, z, xs, xs, 0, [], [])
  {
    NothingChanged(z.tags, z.next, z.on, xs);
    assert forall y: nat :: SameSpan(z.tiles, z.tiles, y);
  }

  /** The walk ends only at the end of the list. */
  lemma AtEnd(z0: Snapshot, z: Snapshot, head: nat, ys: seq<nat>, xs: seq<nat>, k: nat, left: seq<nat>, taken: seq<nat>)
    requires ListOk(z.next, z.on, head, ys) && Swept(z0, z, ys, xs, k, left, taken)
    ensures k < |xs| ==> xs[k] != NO_SPAN
  {
    if k < |xs| {
      assert LinkOk(z.next, z.on, ys, |left|) && ys[|left|] == xs[k];
    }
  }

  lemma SweptSummary(z0: Snapshot, z: Snapshot, ys: seq<nat>, xs: seq<nat>, k: nat, left: seq<nat>, taken: seq<nat>,
                     o: seq<nat>, slots: nat, g: nat)
    requires Swept(z0, z, ys, xs, k, left, taken) && WholeIn(xs, o, g) && Heads(xs, o, z0.tiles, slots) && Bare(o, z0.tiles, z0.on)
    ensures Reclaimed(xs, ys, taken, z0.held, z.held) && OthersUntouched(z0, z, o, o, xs, taken)
    ensures WholeIn(taken, o, g) && RetiredAll(taken, z.on, z.tiles) && Bare(o, z.tiles, z.on)
    ensures k == |xs| ==> forall x | x in ys :: !NoneOutIn(z0.held, x)
  {
    SweptMembers(ys, xs, k, left, taken, z0.held);
    forall i: nat | i < |o| && o[i] != i ensures TiledIn(z.tiles, i, 0) && !z.on[i] {
      assert i !in xs && i !in taken;
      assert SameSpan(z0.tiles, z.tiles, i) && z.on[i] == z0.on[i];
    }
    forall x, i: nat | x in taken && x <= i < x + g ensures OwnedBy(o, i, x) {
    }
  }

  lemma SweptMembers(ys: seq<nat>, xs: seq<nat>, k: nat, left: seq<nat>, taken: seq<nat>, h0: seq<Word>)
    requires SweptTo(ys, xs, k, left, taken, h0)
    ensures ys == Keeping(xs, Members(taken)) && |ys| + |taken| == |xs|
    ensures (forall y | y in taken :: y in xs && y !in ys) && (forall y | y in ys :: y in xs)
    ensures (forall y | y in xs :: y in ys || y in taken)
    ensures k == |xs| ==> forall x | x in ys :: !NoneOutIn(h0, x)
  {
    forall i | k <= i < |xs| ensures xs[i] !in taken {
      assert xs[i] !in xs[..k];
    }
    KeepingTail(xs, Members(taken), k);
    forall y | y in xs ensures y in ys || y in taken {
      var i :| 0 <= i < |xs| && xs[i] == y;
      if i >= k { assert xs[k..][i - k] == y; }
    }
  }

  /** The cell's own list after the retired runs are filed. */
  lemma FiledCell(ys: seq<nat>, o0: seq<nat>, o1: seq<nat>, tiles: seq<Word>, taken: seq<nat>, slots: nat, g: nat)
    requires Heads(ys, o0, tiles, slots) && WholeIn(ys, o0, g) && OwnersFreed(o0, o1, taken) && forall y | y in ys :: y !in taken
    ensures Heads(ys, o1, tiles, slots) && WholeIn(ys, o1, g)
  {
    forall x, i: nat | x in ys && x <= i < x + g ensures OwnedBy(o1, i, x) {
      assert OwnedBy(o0, i, x);
    }
  }

  ghost function Disowned(owner: seq<nat>, y: nat, g: nat): (r: seq<nat>)
    ensures |r| == |owner|
  {
    seq(|owner|, i requires 0 <= i < |owner| => if y <= i < y + g then NO_SPAN else owner[i])
  }

  lemma FiledOwner(o: seq<nat>, tiles: seq<Word>, on: seq<bool>, spare: set<nat>, y: nat, g: nat)
    requires Bare(o, tiles, on) && Unowned(o, spare) && y + g <= |o| <= NO_SPAN && g >= 1 && WholeIn([y], o, g)
    requires TiledIn(tiles, y, 0) && !on[y]
    ensures Bare(Disowned(o, y, g), tiles, on) && Unowned(Disowned(o, y, g), spare + Range(y, g))
  {
    var o2 := Disowned(o, y, g);
    forall i: nat | i < |o2| && o2[i] != i ensures TiledIn(tiles, i, 0) && !on[i] {
      if y < i < y + g { assert OwnedBy(o, i, y); }
    }
  }

  /** Spans leave a group only by being freed, and only groups headed by `taken`. */
  ghost predicate OwnersFreed(o0: seq<nat>, o1: seq<nat>, taken: seq<nat>) {
    |o0| == |o1| && forall i: nat {:trigger o1[i]} | i < |o0| :: o1[i] == o0[i] || (o1[i] == NO_SPAN && o0[i] in taken)
  }

  ghost predicate InSome(taken: seq<nat>, g: nat, i: nat) {
    exists y :: y in taken && y <= i < y + g
  }

  lemma FiledMore(o0: seq<nat>, o1: seq<nat>, o2: seq<nat>, taken: seq<nat>, j: nat, g: nat, f0: set<nat>, f1: set<nat>, f2: set<nat>)
    requires j < |taken| && SpanPools.Distinct(taken) && OwnersFreed(o0, o1, taken[..j]) && WholeIn(taken[j..], o1, g)
    requires o2 == Disowned(o1, taken[j], g) && f2 == f1 + Range(taken[j], g) && |o1| <= NO_SPAN
    requires forall i: nat :: i in f1 <==> i in f0 || InSome(taken[..j], g, i)
    ensures OwnersFreed(o0, o2, taken[..j + 1]) && WholeIn(taken[j + 1..], o2, g)
    ensures forall i: nat :: i in f2 <==> i in f0 || InSome(taken[..j + 1], g, i)
  {
    var y := taken[j];
    assert taken[..j + 1] == taken[..j] + [y] && taken[j..] == [y] + taken[j + 1..];
    forall i: nat | y <= i < y + g ensures OwnedBy(o1, i, y) {
      assert y in taken[j..];
    }
    forall i: nat | i < |o0| ensures o2[i] == o0[i] || (o2[i] == NO_SPAN && o0[i] in taken[..j + 1]) {
      if y <= i < y + g { assert OwnedBy(o1, i, y) && OwnedBy(o1, y, y) && y in taken[..j + 1]; }
      assert o1[i] == o0[i] || (o1[i] == NO_SPAN && o0[i] in taken[..j]);
    }
    forall x, i: nat | x in taken[j + 1..] && x <= i < x + g ensures OwnedBy(o2, i, x) {
      assert x in taken[j..] && OwnedBy(o1, i, x) && x != y;
    }
    forall i: nat ensures InSome(taken[..j + 1], g, i) <==> InSome(taken[..j], g, i) || y <= i < y + g {
      if InSome(taken[..j], g, i) {
        var x :| x in taken[..j] && x <= i < x + g;
        assert x in taken[..j + 1];
      }
      if y <= i < y + g { assert y in taken[..j + 1]; }
    }
  }

  /** A list `xs` is now `ys`, the spans `taken`, none of which has a slot out, having been reclaimed from it. */
  ghost predicate Reclaimed(xs: seq<nat>, ys: seq<nat>, taken: seq<nat>, h0: seq<Word>, h1: seq<Word>) {
    && Returned(h0, h1) && |ys| + |taken| == |xs| && ys == Keeping(xs, Members(taken))
    && (forall y | y in taken :: y in xs && y !in ys && NoneOutIn(h1, y))
    && (forall y | y in ys :: y in xs)
    && (forall y | y in xs :: y in ys || y in taken)
  }

  /** What matters of a cell. */
  datatype View = View(head: nat, spans: seq<nat>, slots: nat, group: nat, cls: nat, shard: nat)

  ghost predicate GoodView(v: View, z: Snapshot, o: seq<nat>) {
    && ListOk(z.next, z.on, v.head, v.spans) && Heads(v.spans, o, z.tiles, v.slots)
    && Named(v.spans, z.tags, z.tiles, v.cls, v.shard, v.slots) && WholeIn(v.spans, o, v.group) && v.cls < LARGE_CLASS
  }

  ghost predicate GoodViews(vs: seq<View>, z: Snapshot, o: seq<nat>) {
    && (forall j {:trigger vs[j]} | 0 <= j < |vs| :: GoodView(vs[j], z, o))
    && (forall i, j | 0 <= i < j < |vs| :: Members(vs[i].spans) !! Members(vs[j].spans))
  }

  lemma GoodAt(vs: seq<View>, z: Snapshot, o: seq<nat>, i: nat)
    requires GoodViews(vs, z, o) && i < |vs|
    ensures GoodView(vs[i], z, o)
  {
  }

  lemma OthersGood(vs: seq<View>, i: nat, v: View, z0: Snapshot, z: Snapshot, o0: seq<nat>, o: seq<nat>, taken: seq<nat>)
    requires i < |vs| && GoodViews(vs, z0, o0) && OthersUntouched(z0, z, o0, o, vs[i].spans, taken) && RetiredAll(taken, z.on, z.tiles)
    requires GoodView(v, z, o) && (forall y | y in taken :: y in vs[i].spans) && Members(v.spans) <= Members(vs[i].spans)
    ensures GoodViews(vs[i := v], z, o)
  {
    forall j | 0 <= j < |vs| && j != i ensures GoodView(vs[j], z, o) {
      OtherCell(z0, z, o0, o, vs[i].spans, taken, vs[j]);
    }
  }

  /** A cell whose list shares no span with the reclaimed one. */
  lemma OtherCell(z0: Snapshot, z: Snapshot, o0: seq<nat>, o: seq<nat>, xs: seq<nat>, taken: seq<nat>, v: View)
    requires OthersUntouched(z0, z, o0, o, xs, taken) && RetiredAll(taken, z.on, z.tiles)
    requires Members(xs) !! Members(v.spans) && forall y | y in taken :: y in xs
    requires GoodView(v, z0, o0)
    ensures GoodView(v, z, o)
  {
    var ys := v.spans;
    assert forall y | y in ys :: y !in xs && y !in taken by {
      forall y | y in ys ensures y !in xs { assert y in Members(ys); }
    }
    ListKept(z0.next, z0.on, v.head, ys, z.next, z.on);
    forall x | x in ys ensures o[x] == x && TiledIn(z.tiles, x, v.slots) {
      assert SameSpan(z0.tiles, z.tiles, x);
    }
    forall h: nat | h < |z.tags| && z.tags[h].Some? && z.tags[h].value.0 == v.cls
      ensures TiledIn(z.tiles, h, 0) || (TiledIn(z.tiles, h, v.slots) && (z.tags[h].value.1 == v.shard ==> h in ys))
    {
      assert z.tags[h] == z0.tags[h];
      if h !in taken { assert SameSpan(z0.tiles, z.tiles, h); }
    }
    forall x, i: nat | x in ys && x <= i < x + v.group ensures OwnedBy(o, i, x) {
      assert OwnedBy(o0, i, x);
    }
  }

  lemma UntouchedOn(z0: Snapshot, z1: Snapshot, o0: seq<nat>, o1: seq<nat>, xs: seq<nat>, taken: seq<nat>)
    requires OthersUntouched(z0, z1, o0, o0, xs, taken) && OwnersFreed(o0, o1, taken)
    ensures OthersUntouched(z0, z1, o0, o1, xs, taken)
  {
  }

  lemma ReclaimedMembers(xs: seq<nat>, ys: seq<nat>, taken: seq<nat>, h0: seq<Word>, h1: seq<Word>)
    requires Reclaimed(xs, ys, taken, h0, h1)
    ensures (forall y | y in taken :: y in xs) && Members(ys) <= Members(xs)
  {
  }

  /** The spans of a list with no slot out. */
  ghost function Empties(xs: seq<nat>, h: seq<Word>): (r: set<nat>)
    ensures forall x :: x in r <==> x in xs && NoneOutIn(h, x)
  {
    set x | x in xs && NoneOutIn(h, x)
  }

  lemma {:induction false} MembersCount(xs: seq<nat>)
    requires SpanPools.Distinct(xs)
    ensures |Members(xs)| == |xs|
  {
    if xs != [] {
      var ys := xs[..|xs| - 1];
      MembersCount(ys);
      assert xs == ys + [xs[|xs| - 1]] && xs[|xs| - 1] !in ys;
      assert Members(xs) == Members(ys) + {xs[|xs| - 1]};
    }
  }

  lemma ReclaimedFewer(xs: seq<nat>, ys: seq<nat>, taken: seq<nat>, h0: seq<Word>, h1: seq<Word>)
    requires Reclaimed(xs, ys, taken, h0, h1) && SpanPools.Distinct(taken)
    ensures |ys| + |taken| == |xs|
    ensures h0 == h1 ==> |Empties(ys, h1)| + |taken| == |Empties(xs, h1)|
  {
    if h0 == h1 {
      MembersCount(taken);
      assert Empties(xs, h1) == Empties(ys, h1) + Members(taken) && Empties(ys, h1) !! Members(taken);
    }
  }

  lemma ReclaimedNone(z: Snapshot, o: seq<nat>, xs: seq<nat>)
    requires |z.next| == |z.on|
    ensures OthersUntouched(z, z, o, o, xs, []) && Reclaimed(xs, xs, [], z.held, z.held)
  {
    NothingChanged(z.tags, z.next, z.on, xs);
    assert forall y: nat :: SameSpan(z.tiles, z.tiles, y);
    KeepingTail(xs, {}, 0);
    assert Members([]) == {} && xs[..0] == [] && xs[0..] == xs;
  }

  /** What a reclaim leaves alone: the tiling, entries, owners and links of every span but those it took. */
  ghost predicate OthersUntouched(z0: Snapshot, z1: Snapshot, o0: seq<nat>, o1: seq<nat>, xs: seq<nat>, taken: seq<nat>) {
    && TilesKept(z0.tiles, z1.tiles, taken) && TagsRetired(z0.tags, z1.tags) && OwnersFreed(o0, o1, taken)
    && LinksKept(z0.next, z1.next, z0.on, z1.on, xs) && |z0.tiles| == |z1.tiles|
  }

  lemma ListedOn(next: seq<nat>, on: seq<bool>, head: nat, xs: seq<nat>)
    requires ListOk(next, on, head, xs)
    ensures forall y | y in xs && y < |on| :: on[y]
  {
    forall y | y in xs && y < |on| ensures on[y] {
      var i :| 0 <= i < |xs| && xs[i] == y;
      assert LinkOk(next, on, xs, i);
    }
  }

  /** Retired spans are off every list and have no tiling. */
  ghost predicate RetiredAll(taken: seq<nat>, on: seq<bool>, tiles: seq<Word>) {
    forall y | y in taken :: y < |on| && !on[y] && TiledIn(tiles, y, 0)
  }

  /** How far a sweep of a cell's list `xs` has come, the list now being `ys`: of the first `k` spans it has
      retired `taken` and left `left`, each of which had a slot out when the sweep began. */
  ghost predicate SweptTo(ys: seq<nat>, xs: seq<nat>, k: nat, left: seq<nat>, taken: seq<nat>, h0: seq<Word>) {
    && k <= |xs| && SpanPools.Distinct(xs) && ys == left + xs[k..]
    && (forall i | 0 <= i < k :: xs[i] in left || xs[i] in taken)
    && (forall y | y in left :: y in xs[..k] && !NoneOutIn(h0, y))
    && (forall y | y in taken :: y in xs[..k] && y !in left)
    && SpanPools.Distinct(taken) && left == Keeping(xs[..k], Members(taken)) && |left| + |taken| == k
  }

  /** `xs` without the spans of `gone`, in order. */
  ghost function Keeping(xs: seq<nat>, gone: set<nat>): seq<nat> {
    if xs == [] then []
    else
      var r := Keeping(xs[..|xs| - 1], gone);
      if xs[|xs| - 1] in gone then r else r + [xs[|xs| - 1]]
  }

  lemma {:induction false} KeepingWithout(xs: seq<nat>, gone: set<nat>, x: nat)
    requires x !in xs
    ensures Keeping(xs, gone + {x}) == Keeping(xs, gone)
  {
    if xs != [] { KeepingWithout(xs[..|xs| - 1], gone, x); }
  }

  lemma {:induction false} KeepingTail(xs: seq<nat>, gone: set<nat>, k: nat)
    requires k <= |xs| && forall i | k <= i < |xs| :: xs[i] !in gone
    ensures Keeping(xs, gone) == Keeping(xs[..k], gone) + xs[k..]
    decreases |xs|
  {
    if k == |xs| {
      assert xs[..k] == xs;
    } else {
      var ys := xs[..|xs| - 1];
      KeepingTail(ys, gone, k);
      assert ys[..k] == xs[..k] && xs[k..] == ys[k..] + [xs[|xs| - 1]];
    }
  }

  lemma SweptLeft(ys: seq<nat>, xs: seq<nat>, k: nat, left: seq<nat>, taken: seq<nat>, h0: seq<Word>)
    requires SweptTo(ys, xs, k, left, taken, h0) && k < |xs| && !NoneOutIn(h0, xs[k])
    ensures SweptTo(ys, xs, k + 1, left + [xs[k]], taken, h0)
  {
    assert xs[..k + 1] == xs[..k] + [xs[k]];
    assert xs[k..] == [xs[k]] + xs[k + 1..];
    assert xs[..k + 1][..k] == xs[..k] && xs[k] !in xs[..k];
  }

  lemma SweptTaken(ys: seq<nat>, xs: seq<nat>, k: nat, left: seq<nat>, taken: seq<nat>, h0: seq<Word>)
    requires SweptTo(ys, xs, k, left, taken, h0) && k < |xs|
    ensures SweptTo(SpanPools.Without(ys, |left|), xs, k + 1, left, taken + [xs[k]], h0)
  {
    assert xs[..k + 1] == xs[..k] + [xs[k]];
    assert SpanPools.Without(ys, |left|) == left + xs[k + 1..];
    assert xs[k] !in xs[..k] && xs[..k + 1][..k] == xs[..k];
    KeepingWithout(xs[..k], Members(taken), xs[k]);
    assert Members(taken + [xs[k]]) == Members(taken) + {xs[k]};
  }

  lemma RetiredMore(taken: seq<nat>, xs: seq<nat>, k: nat, span: nat, on1: seq<bool>, on2: seq<bool>, t1: seq<Word>, t2: seq<Word>, ys: seq<nat>)
    requires RetiredAll(taken, on1, t1) && |on1| == |on2| && ElsewhereSame(t1, t2, span) && span < |on2| && !on2[span] && TiledIn(t2, span, 0)
    requires k < |xs| && span == xs[k] && SpanPools.Distinct(xs) && forall y | y in taken :: y in xs[..k]
    requires forall x: nat | x < |on1| && x !in ys :: on2[x] == on1[x]
    requires forall y | y in ys && y < |on1| :: on1[y]
    ensures RetiredAll(taken + [span], on2, t2)
  {
    forall y | y in taken ensures !on2[y] && TiledIn(t2, y, 0) {
      assert y != span && y !in ys;
    }
  }

  /** Every slot of `ids` is a slot of a span tiled with `slots` slots. */
  ghost predicate TiledSlots(ids: seq<nat>, tiles: seq<Word>, slots: nat) {
    forall g | g in ids :: TiledIn(tiles, g / SPAN_SLOTS, slots) && g % SPAN_SLOTS < slots
  }

  /** A span that has slots keeps its tiling. */
  ghost predicate KeepsTiled(t0: seq<Word>, t1: seq<Word>) {
    |t0| == |t1| && forall y: nat {:trigger SameSpan(t0, t1, y)} :: TiledIn(t0, y, 0) || SameSpan(t0, t1, y)
  }

  lemma KeepsElsewhere(t0: seq<Word>, t1: seq<Word>, x: nat)
    requires ElsewhereSame(t0, t1, x) && TiledIn(t0, x, 0)
    ensures KeepsTiled(t0, t1)
  {
    forall y: nat ensures TiledIn(t0, y, 0) || SameSpan(t0, t1, y) {
      if y != x {
        forall w: nat | w < WORDS_PER_SPAN && WordIndex(y, w) < |t0| ensures t1[WordIndex(y, w)] == t0[WordIndex(y, w)] {
        }
      }
    }
  }

  lemma KeepsOn(t0: seq<Word>, t1: seq<Word>, t2: seq<Word>)
    requires KeepsTiled(t0, t1) && KeepsTiled(t1, t2)
    ensures KeepsTiled(t0, t2)
  {
    forall y: nat ensures TiledIn(t0, y, 0) || SameSpan(t0, t2, y) {
      assert TiledIn(t0, y, 0) || SameSpan(t0, t1, y);
      assert TiledIn(t1, y, 0) || SameSpan(t1, t2, y);
    }
  }

  /** `each`, `k` times. */
  function Total(k: nat, each: nat): nat {
    if k == 0 then 0 else Total(k - 1, each) + each
  }

  lemma {:induction false} TotalIs(k: nat, each: nat)
    ensures Total(k, each) == k * each
  {
    if k > 0 {
      TotalIs(k - 1, each);
      assert k * each == (k - 1) * each + each;
    }
  }

  ghost predicate WholeIn(xs: seq<nat>, owner: seq<nat>, g: nat) {
    forall x, i: nat {:trigger OwnedBy(owner, i, x)} | x in xs && x <= i < x + g :: OwnedBy(owner, i, x)
  }

  ghost predicate OwnedBy(owner: seq<nat>, i: nat, x: nat) {
    i < |owner| && owner[i] == x
  }

  lemma WholeMore(xs: seq<nat>, o0: seq<nat>, o1: seq<nat>, x: nat, got: nat)
    requires WholeIn(xs, o0, got) && x + got <= |o0| < NO_SPAN && o1 == Claimed(o0, x, got)
    requires (forall i: nat | x <= i < x + got :: o0[i] == NO_SPAN) && forall y | y in xs :: y < |o0|
    ensures WholeIn([x] + xs, o1, got)
  {
    forall y, i: nat | y in [x] + xs && y <= i < y + got ensures OwnedBy(o1, i, y) {
      if y != x { assert y in xs && OwnedBy(o0, i, y); }
    }
  }

  /** All the slots of spans `lo` to `hi` are free in their private words. */
  ghost predicate FullRange(lo: nat, hi: nat, a: seq<Word>, t: seq<Word>) {
    forall x: nat {:trigger FullIn(a, t, x, WORDS_PER_SPAN)} | lo <= x < hi :: FullIn(a, t, x, WORDS_PER_SPAN)
  }

  lemma StillFull(a0: seq<Word>, a1: seq<Word>, t0: seq<Word>, t1: seq<Word>, lo: nat, x: nat)
    requires FullRange(lo, x, a0, t0) && ElsewhereSame(a0, a1, x) && ElsewhereSame(t0, t1, x)
    requires FullIn(a1, t1, x, WORDS_PER_SPAN) && Drained(a0, x, WORDS_PER_SPAN)
    ensures FullRange(lo, x + 1, a1, t1) && Grows(a0, a1)
  {
    forall y: nat | lo <= y < x ensures FullIn(a1, t1, y, WORDS_PER_SPAN) {
      assert FullIn(a0, t0, y, WORDS_PER_SPAN);
      forall w: nat | w < WORDS_PER_SPAN && WordIndex(y, w) < |a1| ensures a1[WordIndex(y, w)] == t1[WordIndex(y, w)] {
        assert a0[WordIndex(y, w)] == t0[WordIndex(y, w)];
      }
    }
    forall i: nat | i < |a0| ensures a0[i] <= a1[i] {
      if WordIndex(x, 0) <= i < WordIndex(x + 1, 0) {
        assert i == WordIndex(x, i - WordIndex(x, 0));
      }
    }
  }

  ghost function Dedicated(tags: seq<Option<(nat, nat)>>, h: nat, n: nat, tag: (nat, nat)): (r: seq<Option<(nat, nat)>>)
    ensures |r| == |tags|
  {
    if n == 0 then tags else Retagged(tags, h, n, tag)
  }

  /** Dedicating fresh spans to a cell. */
  lemma RetaggedCell(xs: seq<nat>, tags: seq<Option<(nat, nat)>>, owner: seq<nat>, tiles: seq<Word>, on: seq<bool>,
                     start: nat, count: nat, cls: nat, shard: nat, slots: nat)
    requires Named(xs, tags, tiles, cls, shard, slots) && Bare(owner, tiles, on) && |tags| == |owner| < NO_SPAN
    requires forall i: nat | start <= i < start + count && i < |owner| :: owner[i] == NO_SPAN
    ensures Named(xs, Dedicated(tags, start, count, (cls, shard)), tiles, cls, shard, slots)
  {
    var t2 := Dedicated(tags, start, count, (cls, shard));
    forall h: nat | h < |t2| && t2[h].Some? && t2[h].value.0 == cls
      ensures TiledIn(tiles, h, 0) || (TiledIn(tiles, h, slots) && (t2[h].value.1 == shard ==> h in xs))
    {
      assert start <= h < start + count ==> owner[h] != h;
    }
  }

  lemma NotListed(xs: seq<nat>, next: seq<nat>, on: seq<bool>, head: nat, x: nat)
    requires ListOk(next, on, head, xs) && x < |on| && !on[x]
    ensures x !in xs
  {
    forall k | 0 <= k < |xs| ensures xs[k] != x {
      assert LinkOk(next, on, xs, k);
    }
  }

  ghost function Claimed(owner: seq<nat>, x: nat, got: nat): (r: seq<nat>)
    ensures |r| == |owner|
  {
    seq(|owner|, i requires 0 <= i < |owner| => if x <= i < x + got then x else owner[i])
  }

  lemma AddedSpan(o0: seq<nat>, o1: seq<nat>, t0: seq<Word>, t1: seq<Word>, on0: seq<bool>, x: nat, got: nat, spare: set<nat>)
    requires Bare(o0, t0, on0) && got >= 1 && x + got <= |o0| && o1 == Claimed(o0, x, got) && ElsewhereSame(t0, t1, x)
    requires forall i: nat | x <= i < x + got :: o0[i] == NO_SPAN && i !in spare
    requires Unowned(o0, spare) && |o0| < NO_SPAN
    ensures Bare(o1, t1, on0[x := true]) && Unowned(o1, spare)
  {
    forall i: nat | i < |o1| && o1[i] != i ensures TiledIn(t1, i, 0) && !on0[x := true][i] {
      assert o0[i] != i;
    }
  }

  lemma AddedToCell(xs: seq<nat>, tags: seq<Option<(nat, nat)>>, o0: seq<nat>, o1: seq<nat>, t0: seq<Word>, t1: seq<Word>,
                    x: nat, got: nat, slots: nat, cls: nat, shard: nat)
    requires Heads(xs, o0, t0, slots) && Named(xs, tags, t0, cls, shard, slots) && TiledIn(t1, x, slots) && ElsewhereSame(t0, t1, x)
    requires got >= 1 && x + got <= |o0| < NO_SPAN && o1 == Claimed(o0, x, got)
    requires forall i: nat | x <= i < x + got :: o0[i] == NO_SPAN
    ensures Heads([x] + xs, o1, t1, slots) && Named([x] + xs, tags, t1, cls, shard, slots)
  {
    forall y | y in [x] + xs ensures y < |o1| && o1[y] == y && TiledIn(t1, y, slots) {
      if y != x {
        assert y in xs;
      }
    }
    forall h: nat | h < |tags| && tags[h].Some? && tags[h].value.0 == cls
      ensures TiledIn(t1, h, 0) || (TiledIn(t1, h, slots) && (tags[h].value.1 == shard ==> h in [x] + xs))
    {
      if h != x { assert ElsewhereSame(t0, t1, x); }
    }
  }

  lemma WordsSuffice(osz: nat)
    requires ClassSize(osz)
    ensures SlotsPerSpan(osz) <= (SlotsPerSpan(osz) + 63) / BITS * BITS && (SlotsPerSpan(osz) + 63) / BITS <= WORDS_PER_SPAN
  {
    WordsCoverSlots(SlotsPerSpan(osz) - 1, osz);
  }

  ghost predicate NoInterval(f: set<nat>, n: nat) {
    forall h: nat {:trigger Range(h, n)} :: !(Range(h, n) <= f)
  }

  /** No recorded run of `n` spans means no `n` free spans in a row. */
  lemma NoRunNoInterval(r: SpanPools.Runs, s: nat, n: nat)
    requires n >= 1 && SpanPools.Separated(r, s) && forall h | h in r :: r[h] < n
    ensures NoInterval(SpanPools.FreeSpans(r, s), n)
  {
    forall h: nat ensures !(Range(h, n) <= SpanPools.FreeSpans(r, s)) {
      if Range(h, n) <= SpanPools.FreeSpans(r, s) {
        var k := SpanPools.IntervalInsideOneRun(r, s, h, n);
      }
    }
  }

  ghost function Retagged(tags: seq<Option<(nat, nat)>>, h: nat, n: nat, tag: (nat, nat)): (r: seq<Option<(nat, nat)>>)
    ensures |r| == |tags|
  {
    seq(|tags|, i requires 0 <= i < |tags| => if h <= i < h + n then Some(tag) else tags[i])
  }

  // --- what a sweep takes off the lists and files ------------------------------------------------

  /** Span `i` is of the group of a span of `xs` that is not in `ys`. */
  ghost predicate GoneGroup(xs: seq<nat>, ys: seq<nat>, g: nat, i: nat) {
    exists y :: y in xs && y !in ys && y <= i < y + g
  }

  /** List `xs` is now `ys`: `n` spans have left it, none has joined, and the pool, `f0` before, has gained exactly
      their groups. */
  ghost predicate Shed(xs: seq<nat>, ys: seq<nat>, n: nat, g: nat, f0: set<nat>, f1: set<nat>) {
    && |ys| + n == |xs| && (forall y | y in ys :: y in xs)
    && forall i: nat :: i in f1 <==> i in f0 || GoneGroup(xs, ys, g, i)
  }

  lemma ShedNone(xs: seq<nat>, g: nat, f: set<nat>)
    ensures Shed(xs, xs, 0, g, f, f)
  {
  }

  lemma ShedMore(xs: seq<nat>, ys: seq<nat>, zs: seq<nat>, n: nat, m: nat, g: nat, f0: set<nat>, f1: set<nat>, f2: set<nat>)
    requires Shed(xs, ys, n, g, f0, f1) && Shed(ys, zs, m, g, f1, f2)
    ensures Shed(xs, zs, n + m, g, f0, f2)
  {
    forall i: nat ensures i in f2 <==> i in f0 || GoneGroup(xs, zs, g, i) {
      if GoneGroup(xs, zs, g, i) {
        var y :| y in xs && y !in zs && y <= i < y + g;
        assert GoneGroup(xs, ys, g, i) || GoneGroup(ys, zs, g, i);
      }
    }
  }

  lemma TakenShed(xs: seq<nat>, ys: seq<nat>, taken: seq<nat>, h0: seq<Word>, h1: seq<Word>, g: nat, f0: set<nat>, f1: set<nat>)
    requires Reclaimed(xs, ys, taken, h0, h1) && forall i: nat :: i in f1 <==> i in f0 || InSome(taken, g, i)
    ensures Shed(xs, ys, |taken|, g, f0, f1)
  {
    forall i: nat ensures InSome(taken, g, i) <==> GoneGroup(xs, ys, g, i) {
      if InSome(taken, g, i) {
        var y :| y in taken && y <= i < y + g;
        assert y in xs && y !in ys;
      }
      if GoneGroup(xs, ys, g, i) {
        var y :| y in xs && y !in ys && y <= i < y + g;
        assert y in taken;
      }
    }
  }

  /** The entries of all lists. */
  ghost function Entries(xss: seq<seq<nat>>): nat {
    if xss == [] then 0 else Entries(xss[..|xss| - 1]) + |xss[|xss| - 1]|
  }

  lemma {:induction false} EntriesLess(xss: seq<seq<nat>>, i: nat, ys: seq<nat>, n: nat)
    requires i < |xss| && |ys| + n == |xss[i]|
    ensures Entries(xss[i := ys]) + n == Entries(xss)
  {
    var k := |xss| - 1;
    if i < k {
      EntriesLess(xss[..k], i, ys, n);
      assert xss[i := ys][..k] == xss[..k][i := ys];
    } else {
      assert xss[i := ys][..k] == xss[..k];
    }
  }

  /** The same of all cells, whose lists were `xss` and are `yss`, with groups of `gs` spans. */
  ghost predicate ShedAll(xss: seq<seq<nat>>, yss: seq<seq<nat>>, n: nat, gs: seq<nat>, f0: set<nat>, f1: set<nat>) {
    && |xss| == |yss| == |gs| && Entries(yss) + n == Entries(xss)
    && (forall j, y | 0 <= j < |yss| && y in yss[j] :: y in xss[j])
    && forall i: nat :: i in f1 <==> i in f0 || exists j {:trigger yss[j]} :: 0 <= j < |yss| && GoneGroup(xss[j], yss[j], gs[j], i)
  }

  lemma ShedNoneAll(xss: seq<seq<nat>>, gs: seq<nat>, f: set<nat>)
    requires |gs| == |xss|
    ensures ShedAll(xss, xss, 0, gs, f, f)
  {
  }

  lemma ShedAllMore(xss: seq<seq<nat>>, yss: seq<seq<nat>>, n: nat, gs: seq<nat>, f0: set<nat>, f1: set<nat>, f2: set<nat>,
                    k: nat, zs: seq<nat>, m: nat)
    requires ShedAll(xss, yss, n, gs, f0, f1) && k < |yss| && yss[k] == xss[k] && Shed(yss[k], zs, m, gs[k], f1, f2)
    ensures ShedAll(xss, yss[k := zs], n + m, gs, f0, f2)
  {
    EntriesLess(yss, k, zs, m);
    var zss := yss[k := zs];
    forall i: nat ensures i in f2 <==> i in f0 || exists j {:trigger zss[j]} :: 0 <= j < |zss| && GoneGroup(xss[j], zss[j], gs[j], i) {
      if i in f2 && i !in f0 {
        if i in f1 {
          var j :| 0 <= j < |yss| && GoneGroup(xss[j], yss[j], gs[j], i);
          assert zss[j] == yss[j];
        } else {
          assert zss[k] == zs;
        }
      }
      if j :| 0 <= j < |zss| && GoneGroup(xss[j], zss[j], gs[j], i) {
        assert j != k ==> zss[j] == yss[j];
      }
    }
  }

  // --- a sweep that stops too soon ------------------------------------------------------------

  /** A sub-heap of 33 spans, all of them carved, alone, for one class of span-sized objects. */
  method CarveAll() returns (sh: SubHeap, c: CentralList)
    ensures fresh(sh) && fresh(sh.bm) && fresh(sh.bm.Arrays()) && fresh(sh.pool.Repr()) && fresh(sh.table.entries) && fresh(sh.arena)
    ensures fresh(c) && sh.Valid() && sh.bm.quiet && sh.AllGood([c]) && |Empties(c.spans, sh.bm.held)| == 33
  {
    hide SpanPools.SpanPool.Valid, SubHeap.Valid, WordsOk, SubHeap.AllGood, SubHeap.CarvedTo, SubHeap.SpansWanted, SubHeap.Left, SubHeap.CellOk, NoInterval, Empties;
    sh := new SubHeap(0, 33 * SPAN_BYTES, [0, SPAN_BYTES], true);
    c := new CentralList(0, 1);
    sh.EmptyCell(c);
    sh.TakesAll(c, 33);
    ghost var a0, o0 := sh.bm.allocWords[..], sh.owner;
    ghost var start, k, count;
    var n, busy;
    n, start, k, busy, count := sh.CentralCarve(c, 33);
    sh.OneGood(c, start, k, a0, o0);
  }

  /** Told to reclaim 33 spans at a time, a sweep of 33 empty spans leaves one of them on the list. */
  method MissedSpanExample() returns (sh: SubHeap, c: CentralList)
    ensures sh.Valid() && sh.bm.quiet && sh.AllGood([c]) && Empties(c.spans, sh.bm.held) != {}
  {
    sh, c := CarveAll();
    var n := sh.ReclaimEmptySpans([c], 33);
    assert c == [c][0];
  }

  // --- an object that does not fit ------------------------------------------------------------

  lemma OneSpanLeft(sh: SubHeap, c: CentralList)
    requires sh.Fixed() && sh.CellFixed(c) && sh.Size(c) == 2 * SPAN_BYTES && sh.arena.end == SPAN_BYTES
    ensures sh.SpansWanted(c, 1) == sh.Group(c) == 2 && sh.Left(2, 0) == 1 && sh.Slots(c) == 1 && sh.bm.numSpans == 1
    ensures NoInterval({}, 2)
  {
    Arena.ShortGroupExample();
    forall h: nat ensures !(Range(h, 2) <= {}) {
      assert h in Range(h, 2);
    }
  }

  /** A group of two spans cannot be whole in a sub-heap of one. */
  lemma OneShortGroup(sh: SubHeap, c: CentralList, start: nat, a0: seq<Word>, o0: seq<nat>)
    requires sh.Valid() && sh.CellFixed(c) && sh.CellOk(c) && sh.bm.numSpans == 1 && sh.Group(c) == 2
    requires sh.CarvedTo(c.spans, sh.bm.allocWords[..], sh.bm.tiles, sh.owner, start, start + 1, [], a0, o0, 2)
    ensures start == 0 && c.spans == [0] && !sh.Whole(c) && FullIn(sh.bm.allocWords[..], sh.bm.tiles, 0, WORDS_PER_SPAN)
  {
    FrontOfList(c.spans, start, 1, [], sh.bm.allocWords[..], sh.bm.tiles);
    assert start in c.spans && start < |sh.owner| && c.spans[0] == start;
    assert !OwnedBy(sh.owner, 1, 0);
  }

  /** The only slot a one-span sub-heap can hand out of a class with one slot a span is the first. */
  lemma OnlySlot(k0: seq<Word>, k1: seq<Word>, tiles: seq<Word>, out: seq<nat>, ids: seq<nat>, osz: nat)
    requires Lists(out, ids, 0, osz) && Gained(k0, k1, ids) && TiledSlots(ids, tiles, 1)
    requires |k0| == WORDS_PER_SPAN && |out| == 1
    ensures out == [0] && 0 in k1[0]
  {
    var g := ids[0];
    assert g in ids && Central.Fresh(k0, g) && g == 0;
    assert Central.InWord(k1, 0, 0);
  }

  /** With one span left a class of 128 KiB is handed an object that ends beyond the arena, alone and in a run
      from the start; and its group on the list is not whole. */
  method ShortGroupRun() returns (sh: SubHeap, c: CentralList, p: nat)
    ensures sh.Valid() && sh.CellFixed(c) && sh.CellOk(c) && c.spans == [0] && !sh.Whole(c)
    ensures p == 0 && 0 in sh.bm.kept[0] && p + sh.Size(c) > sh.arena.end
  {
    hide SpanPools.SpanPool.Valid, SubHeap.Valid, WordsOk, SubHeap.SpansWanted, SubHeap.Left, SubHeap.CellOk, SubHeap.CarvedTo;
    hide SubHeap.Whole, NoInterval;
    sh := new SubHeap(0, SPAN_BYTES, [0, 2 * SPAN_BYTES], true);
    c := new CentralList(0, 1);
    sh.EmptyCell(c);
    OneSpanLeft(sh, c);
    ghost var a0, o0 := sh.bm.allocWords[..], sh.owner;
    ghost var start, k, count;
    var n, busy;
    n, start, k, busy, count := sh.CentralCarve(c, 1);
    OneShortGroup(sh, c, start, a0, o0);
    p := TakeOnly(sh, c, start);
  }

  /** Take the one object of a one-span sub-heap. */
  method TakeOnly(sh: SubHeap, c: CentralList, ghost x: nat) returns (p: nat)
    requires sh.Valid() && sh.CellFixed(c) && sh.CellOk(c) && sh.base == 0 && sh.bm.numSpans == sh.Slots(c) == 1
    requires x in c.spans && FullIn(sh.bm.allocWords[..], sh.bm.tiles, x, WORDS_PER_SPAN)
    modifies sh.bm`held, sh.bm`kept, sh.bm.freeWords, sh.bm.allocWords, c`reuseHint
    ensures sh.Valid() && sh.CellOk(c) && p == 0 && 0 in sh.bm.kept[0]
  {
    hide SpanPools.SpanPool.Valid, WordsOk;
    ghost var k0 := sh.bm.kept;
    var out;
    ghost var ids;
    out, ids := sh.TakeMore(c, 1, [], [], k0, x);
    OnlySlot(k0, sh.bm.kept, sh.bm.tiles, out, ids, sh.Size(c));
    p := out[0];
  }
}
