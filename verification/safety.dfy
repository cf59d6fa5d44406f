/** What the span and slot machine promises in every state of every run. */
module Safety {
  import opened Words
  import opened Geometry
  import opened Places
  import opened Lifecycle
  import opened Steps

  // --- every step, every run --------------------------------------------------------

  /** Whatever step any thread takes next, the invariant holds after it. */
  lemma StepKeepsInv(c: Config, s: State, a: Action)
    requires ConfigOk(c) && Inv(c, s) && Enabled(c, s, a)
    ensures Inv(c, Apply(c, s, a))
  {
    if OnSlots(a) {
      SlotActionKeepsInv(c, s, a);
    } else {
      SpanActionKeepsInv(c, s, a);
    }
  }

  /** `acts` can be taken one after another from `s`. */
  ghost predicate CanRun(c: Config, s: State, acts: seq<Action>)
    requires ConfigOk(c)
    decreases |acts|
  {
    acts == [] || (Enabled(c, s, acts[0]) && CanRun(c, Apply(c, s, acts[0]), acts[1..]))
  }

  ghost function After(c: Config, s: State, acts: seq<Action>): State
    requires ConfigOk(c) && CanRun(c, s, acts)
    decreases |acts|
  {
    if acts == [] then s else After(c, Apply(c, s, acts[0]), acts[1..])
  }

  lemma {:induction false} RunKeepsInv(c: Config, s: State, acts: seq<Action>)
    requires ConfigOk(c) && Inv(c, s) && CanRun(c, s, acts)
    ensures Inv(c, After(c, s, acts))
    decreases |acts|
  {
    if acts != [] {
      StepKeepsInv(c, s, acts[0]);
      RunKeepsInv(c, Apply(c, s, acts[0]), acts[1..]);
    }
  }

  // --- what the invariant promises the application ------------------------------------

  /** First byte and length of a tiled object. */
  ghost function FirstByte(c: Config, s: State, o: Obj): nat
    requires ConfigOk(c) && Tiled(c, s.small, o)
  {
    Address(c.base, o.span, o.slot, Size(c, s.small[o.span]))
  }

  ghost function Length(c: Config, s: State, o: Obj): nat
    requires ConfigOk(c) && Tiled(c, s.small, o)
  {
    Size(c, s.small[o.span])
  }

  ghost predicate InArena(c: Config, a: nat, n: nat) {
    c.base <= a && a + n <= SpanBase(c.base, c.numSpans)
  }

  lemma LiveIsTiled(c: Config, s: State, o: Obj)
    requires ConfigOk(c) && Inv(c, s) && o in Get(s.at, Live)
    ensures Tiled(c, s.small, o)
  {
    assert Somewhere(s.at, o);
  }

  /** A tiled group lies within the arena. */
  lemma GroupInArena(c: Config, s: State, h: nat)
    requires ConfigOk(c) && Inv(c, s) && h in s.small
    ensures ValidCell(c, s.small[h]) && Get(s.spans, SmallGroup(h)) == Range(h, Group(c, s.small[h]))
    ensures h + Group(c, s.small[h]) <= c.numSpans
  {
    assert SmallGroupOk(c, s.spans, s.small, h);
    TransitInBounds(c, s, SmallGroup(h), h, Group(c, s.small[h]));
  }

  lemma RunsApart(c: Config, h: nat, n: nat, g: nat, m: nat)
    requires n >= 1 && m >= 1 && Range(h, n) !! Range(g, m)
    ensures h + n <= g || g + m <= h
    ensures SpanBase(c.base, h + n) <= SpanBase(c.base, g) || SpanBase(c.base, g + m) <= SpanBase(c.base, h)
  {
    var i := if h <= g then g else h;
    assert i in Range(h, n) ==> i !in Range(g, m);
  }

  /** Two live objects never share a byte, and every live object lies in the arena. */
  lemma LiveObjectsDisjoint(c: Config, s: State, o: Obj, o2: Obj)
    requires ConfigOk(c) && Inv(c, s) && o in Get(s.at, Live) && o2 in Get(s.at, Live)
    ensures Tiled(c, s.small, o) && Tiled(c, s.small, o2)
    ensures o != o2 ==> Apart(FirstByte(c, s, o), Length(c, s, o), FirstByte(c, s, o2), Length(c, s, o2))
    ensures InArena(c, FirstByte(c, s, o), Length(c, s, o))
  {
    LiveIsTiled(c, s, o);
    LiveIsTiled(c, s, o2);
    GroupInArena(c, s, o.span);
    GroupInArena(c, s, o2.span);
    var z, z2 := Size(c, s.small[o.span]), Size(c, s.small[o2.span]);
    ObjectInGroup(c.base, o.span, o.slot, z);
    ObjectInGroup(c.base, o2.span, o2.slot, z2);
    if o == o2 {
    } else if o.span == o2.span {
      SlotsApart(c.base, o.span, o.slot, o2.slot, z);
    } else {
      RunsApart(c, o.span, GroupSpans(z), o2.span, GroupSpans(z2));
    }
  }

  /** A live object never shares a byte with a live large run, and the run lies in the arena. */
  lemma LiveObjectAndRunDisjoint(c: Config, s: State, o: Obj, h: nat)
    requires ConfigOk(c) && Inv(c, s) && o in Get(s.at, Live) && h in s.large
    ensures Tiled(c, s.small, o)
    ensures Apart(FirstByte(c, s, o), Length(c, s, o), SpanBase(c.base, h), s.large[h] * SPAN_BYTES)
    ensures InArena(c, SpanBase(c.base, h), s.large[h] * SPAN_BYTES)
  {
    LiveIsTiled(c, s, o);
    GroupInArena(c, s, o.span);
    var z := Size(c, s.small[o.span]);
    ObjectInGroup(c.base, o.span, o.slot, z);
    assert LargeRunOk(s.spans, s.large, s.runSpans, s.table, h);
    TransitInBounds(c, s, LargeRun(h), h, s.large[h]);
    RunsApart(c, o.span, GroupSpans(z), h, s.large[h]);
  }

  /** Two live large runs never share a byte. */
  lemma LiveRunsDisjoint(c: Config, s: State, h: nat, g: nat)
    requires ConfigOk(c) && Inv(c, s) && h in s.large && g in s.large && h != g
    ensures Apart(SpanBase(c.base, h), s.large[h] * SPAN_BYTES, SpanBase(c.base, g), s.large[g] * SPAN_BYTES)
  {
    assert LargeRunOk(s.spans, s.large, s.runSpans, s.table, h);
    assert LargeRunOk(s.spans, s.large, s.runSpans, s.table, g);
    RunsApart(c, h, s.large[h], g, s.large[g]);
  }

  /** No double hand-out over whole runs: in every state a run of any threads' steps reaches, what the
      application holds is pairwise disjoint, and nothing of it is also waiting to be handed out. */
  lemma NoDoubleHandOut(c: Config, acts: seq<Action>)
    requires ConfigOk(c) && CanRun(c, Initial(c), acts)
    ensures var s := After(c, Initial(c), acts);
            && (forall o, p | o in Get(s.at, Live) && o in Get(s.at, p) :: p == Live)
            && (forall o, o2 | o in Get(s.at, Live) && o2 in Get(s.at, Live) ::
                  && Tiled(c, s.small, o) && Tiled(c, s.small, o2) && InArena(c, FirstByte(c, s, o), Length(c, s, o))
                  && (o != o2 ==> Apart(FirstByte(c, s, o), Length(c, s, o), FirstByte(c, s, o2), Length(c, s, o2))))
            && (forall o, h | o in Get(s.at, Live) && h in s.large ::
                  && Tiled(c, s.small, o)
                  && Apart(FirstByte(c, s, o), Length(c, s, o), SpanBase(c.base, h), s.large[h] * SPAN_BYTES)
                  && InArena(c, SpanBase(c.base, h), s.large[h] * SPAN_BYTES))
            && (forall h, g | h in s.large && g in s.large && h != g ::
                  Apart(SpanBase(c.base, h), s.large[h] * SPAN_BYTES, SpanBase(c.base, g), s.large[g] * SPAN_BYTES))
  {
    InitialInv(c);
    RunKeepsInv(c, Initial(c), acts);
    var s := After(c, Initial(c), acts);
    forall o, o2 | o in Get(s.at, Live) && o2 in Get(s.at, Live)
      ensures Tiled(c, s.small, o) && Tiled(c, s.small, o2) && InArena(c, FirstByte(c, s, o), Length(c, s, o))
      ensures o != o2 ==> Apart(FirstByte(c, s, o), Length(c, s, o), FirstByte(c, s, o2), Length(c, s, o2))
    {
      LiveObjectsDisjoint(c, s, o, o2);
    }
    forall o, h | o in Get(s.at, Live) && h in s.large
      ensures Tiled(c, s.small, o)
      ensures Apart(FirstByte(c, s, o), Length(c, s, o), SpanBase(c.base, h), s.large[h] * SPAN_BYTES)
      ensures InArena(c, SpanBase(c.base, h), s.large[h] * SPAN_BYTES)
    {
      LiveObjectAndRunDisjoint(c, s, o, h);
    }
    forall h, g | h in s.large && g in s.large && h != g
      ensures Apart(SpanBase(c.base, h), s.large[h] * SPAN_BYTES, SpanBase(c.base, g), s.large[g] * SPAN_BYTES)
    {
      LiveRunsDisjoint(c, s, h, g);
    }
  }

  // --- reclaim -----------------------------------------------------------------------

  predicate Retiring(p: Pc, sp: nat) {
    (p.Reread? || p.Emptied? || p.Unlinked?) && p.span == sp
  }

  /** From the moment a sweep has counted all the slots of a span until it has reset it, no slot of the span is
      live, cached, in a refill buffer, in a deposit mask, swapped out of `free_words` or waiting in
      it: the only place for its slots is the private bitmap. */
  lemma ReclaimIsSafe(c: Config, s: State, t: Tid, o: Obj, p: Place)
    requires ConfigOk(c) && Inv(c, s) && Retiring(PcOf(s, t), o.span) && o in Get(s.at, p)
    ensures p == AllocWords
  {
    assert PcOk(c, s, t);
    assert Somewhere(s.at, o);
  }

  /** So once the count is full the second look at the free words always finds zeros: every slot is in a
      private word, and nobody has one to deposit. */
  lemma RereadFindsZeros(c: Config, s: State, t: Tid)
    requires ConfigOk(c) && Inv(c, s)
    ensures !Enabled(c, s, ReadNonZero(t))
  {
    if PcOf(s, t).Reread? {
      forall o | o in Get(s.at, FreeWords) ensures o.span != PcOf(s, t).span {
        if o.span == PcOf(s, t).span { ReclaimIsSafe(c, s, t, o, FreeWords); }
      }
    }
  }

  /** A span that is no tiled head has no slot anywhere, so no deposit can reach it before it is
      tiled again. */
  lemma NoDepositAfterReclaim(c: Config, s: State, o: Obj, p: Place)
    requires ConfigOk(c) && Inv(c, s) && o.span !in s.small
    ensures o !in Get(s.at, p)
  {
    assert Somewhere(s.at, o) <==> Tiled(c, s.small, o);
    assert o in Get(s.at, p) ==> Somewhere(s.at, o);
  }

  lemma {:induction false} CursorOnlyAdvances(c: Config, s: State, acts: seq<Action>)
    requires ConfigOk(c) && CanRun(c, s, acts)
    ensures s.cursor <= After(c, s, acts).cursor
    decreases |acts|
  {
    if acts != [] {
      CursorOnlyAdvances(c, Apply(c, s, acts[0]), acts[1..]);
      StepAdvances(c, s, acts[0]);
    }
  }

  lemma StepAdvances(c: Config, s: State, a: Action)
    requires ConfigOk(c) && Enabled(c, s, a)
    ensures s.cursor <= Apply(c, s, a).cursor
  {
    if OnSlots(a) {
      SlotStepKeepsSpans(c, s, a);
    }
  }

  lemma SlotStepKeepsSpans(c: Config, s: State, a: Action)
    requires ConfigOk(c) && Enabled(c, s, a) && OnSlots(a)
    ensures s.cursor == Apply(c, s, a).cursor && s.small == Apply(c, s, a).small
  {
    hide Enabled, LargeApply, Get, WordOf, Folded, OfSpan, PcOf, HintOf;
  }

  /** In every reachable state each tiled slot is at exactly one place and each span with exactly
      one owner: nothing is lost and nothing is duplicated, whatever steps are under way. */
  lemma Conservation(c: Config, acts: seq<Action>, o: Obj, i: nat) returns (p: Place, q: Owner)
    requires ConfigOk(c) && CanRun(c, Initial(c), acts)
    requires i < c.numSpans && Tiled(c, After(c, Initial(c), acts).small, o)
    ensures var s := After(c, Initial(c), acts);
            && (forall p2 :: o in Get(s.at, p2) <==> p2 == p)
            && (forall q2 :: i in Get(s.spans, q2) <==> q2 == q)
  {
    InitialInv(c);
    RunKeepsInv(c, Initial(c), acts);
    var s := After(c, Initial(c), acts);
    assert Somewhere(s.at, o) && Somewhere(s.spans, i);
    p :| o in Get(s.at, p);
    q :| i in Get(s.spans, q);
  }

  // --- free by pointer -----------------------------------------------------------------

  /** What the span table says of an address inside the arena. */
  ghost function Lookup(c: Config, s: State, ptr: nat): Tag
  {
    if c.base <= ptr && SpanOf(c.base, ptr) < |s.table| then s.table[SpanOf(c.base, ptr)] else Untagged
  }

  /** The table recovers the allocation class of every object that is not on its way into a
      retirement: wherever a slot is but the private bitmap, its pointer looks up its own cell. */
  lemma LookupFindsClass(c: Config, s: State, o: Obj, p: Place)
    requires ConfigOk(c) && Inv(c, s) && o in Get(s.at, p) && p != AllocWords
    ensures Tiled(c, s.small, o)
    ensures Lookup(c, s, FirstByte(c, s, o)) == Tag(s.small[o.span].cls, s.small[o.span].shard)
    ensures s.small[o.span].cls != LARGE_CLASS
  {
    assert Somewhere(s.at, o);
    var k := s.small[o.span];
    GroupInArena(c, s, o.span);
    LocateInverts(c.base, o.span, o.slot, Size(c, k));
    assert InGroup(c, s.small, k, o.span, o.span);
    if s.table[o.span] != Tag(k.cls, k.shard) {
      var u :| Marked(s, u, o.span, o.span);
      ReclaimIsSafe(c, s, u, o, p);
    }
  }

  /** For a live large run the table says `LARGE_CLASS` and the run table its span count. */
  lemma LookupFindsLargeRun(c: Config, s: State, h: nat)
    requires ConfigOk(c) && Inv(c, s) && h in s.large
    ensures Lookup(c, s, SpanBase(c.base, h)) == LARGE
    ensures h < |s.runSpans| && s.runSpans[h] == s.large[h] >= 1
  {
    assert LargeRunOk(s.spans, s.large, s.runSpans, s.table, h);
    DivisionIsUnique(h * SPAN_BYTES, SPAN_BYTES, h, 0);
  }

  /** No step gives a tiled head to another cell. */
  lemma HeadKept(c: Config, s: State, a: Action, h: nat)
    requires ConfigOk(c) && Inv(c, s) && Enabled(c, s, a) && h in s.small && h in Apply(c, s, a).small
    ensures Apply(c, s, a).small[h] == s.small[h]
  {
    hide Inv, Move, WordOf, Range;
    if OnSlots(a) {
      SlotStepKeepsSpans(c, s, a);
    } else if a.Tile? {
      TileKeepsHeads(c, s, a.t, h);
    }
  }

  lemma TileKeepsHeads(c: Config, s: State, t: Tid, h: nat)
    requires ConfigOk(c) && Inv(c, s) && Enabled(c, s, Tile(t)) && h in s.small
    ensures h in Apply(c, s, Tile(t)).small && Apply(c, s, Tile(t)).small[h] == s.small[h]
  {
    hide SpansOk, LargeOk, SmallOk, SlotsOk, TableOk;
    var p := PcOf(s, t);
    assert PcOk(c, s, t);
    if Group(c, p.k) == 1 {
      NotYetTiled(c, s, t, p.h + p.i, 1);
    } else {
      NotYetTiled(c, s, t, p.h, p.n);
    }
  }

  /** While an object is live its span's table entry does not change. */
  lemma LiveEntryStable(c: Config, s: State, a: Action, o: Obj)
    requires ConfigOk(c) && Inv(c, s) && Enabled(c, s, a)
    requires o in Get(s.at, Live) && o in Get(Apply(c, s, a).at, Live)
    ensures Tiled(c, s.small, o) && o.span < |s.table| == |Apply(c, s, a).table|
    ensures Apply(c, s, a).table[o.span] == s.table[o.span]
  {
    hide SpansOk, LargeOk, SmallOk, SlotsOk, PcOk, Apply, Enabled, Locate;
    var s2 := Apply(c, s, a);
    StepKeepsInv(c, s, a);
    LookupFindsClass(c, s, o, Live);
    LookupFindsClass(c, s2, o, Live);
    HeadKept(c, s, a, o.span);
    GroupInArena(c, s, o.span);
    LocateInverts(c.base, o.span, o.slot, Size(c, s.small[o.span]));
  }

  // --- stale hints -----------------------------------------------------------------------

  /** Whatever span the hint names, the bits a fold has in hand are free slots of the current tiling
      of their span, of the cell that is taking them, and at no other place. */
  lemma HandsOutOwnFreeSlots(c: Config, s: State, t: Tid, o: Obj)
    requires ConfigOk(c) && Inv(c, s) && PcOf(s, t).Have? && o in PcOf(s, t).word
    ensures Tiled(c, s.small, o) && s.small[o.span] == PcOf(s, t).k
    ensures forall p :: o in Get(s.at, p) <==> p == AllocWords
  {
    assert PcOk(c, s, t);
    assert o in Get(s.at, AllocWords);
    assert Somewhere(s.at, o);
  }

  /** The same of an atomic take through a hint that names a span homed on another shard: its slots
      are free slots of the span's current tiling, which is for the class that asked. */
  lemma ForeignHintHandsOutOwnClass(c: Config, s: State, t: Tid, f: set<Obj>, x: set<Obj>, o: Obj)
    requires ConfigOk(c) && Inv(c, s) && Enabled(c, s, ForeignTake(t, f, x)) && o in x
    ensures Tiled(c, s.small, o) && s.small[o.span].cls == PcOf(s, t).k.cls
    ensures forall p :: o in Get(s.at, p) ==> p == AllocWords || p == FreeWords
  {
    var h := HintOf(s, PcOf(s, t).k);
    assert o in Get(s.at, AllocWords) || o in Get(s.at, FreeWords);
    assert Somewhere(s.at, o);
    assert PcOk(c, s, t);
    assert LockOf(PcOf(s, t)) == Some(PcOf(s, t).k) && ValidCell(c, PcOf(s, t).k);
    assert InGroup(c, s.small, s.small[h], h, h);
    GroupInArena(c, s, h);
    if s.table[h] != Tag(s.small[h].cls, s.small[h].shard) {
      var u :| Marked(s, u, h, h);
      assert PcOk(c, s, u);
      GroupInArena(c, s, h);
    }
  }
}
