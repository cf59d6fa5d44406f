/** A lock holder's way out, step by step. */
module Finishing {
  // A thread that holds a cell's lock can always run on, by its own steps alone, until it releases it. A slot that
  // was free in the private bitmap of one of the cell's spans can be made so again, even if the span is retired.

  import opened Words
  import opened Geometry
  import opened Places
  import opened Lifecycle
  import opened Safety
  import opened Moves

  /** Only thread `v` is inside the lock of cell `k`, and it can go on. */
  ghost predicate Inside(c: Config, s: State, v: Tid, k: Cell)
    requires ConfigOk(c)
  {
    && ValidCell(c, k) && LockOf(PcOf(s, v)) == Some(k) && CanGo(c, k, |s.table|, PcOf(s, v))
    && forall x | x != v :: LockOf(PcOf(s, x)) != Some(k)
  }

  predicate CanGo(c: Config, k: Cell, spans: nat, p: Pc)
    requires ConfigOk(c) && ValidCell(c, k)
  {
    match p
    case Scan(_, sp, _, job) => job.Count? ==> sp + Group(c, k) <= spans
    case Peeked(_, sp, _, job) => job.Count? ==> sp + Group(c, k) <= spans
    case Swapped(_, sp, _, job) => job.Count? ==> sp + Group(c, k) <= spans
    case Reread(_, sp, _) => sp + Group(c, k) <= spans
    case Emptied(_, sp) => sp + Group(c, k) <= spans
    case Unlinked(_, sp, i) => i <= Group(c, k) && sp + Group(c, k) <= spans
    case Claimed(_, h, n, i) => i < n && h + n <= spans
    case Tagged(_, _, n, i) => i <= n
    case _ => true
  }

  /** The slots of a span from word `w` on. */
  function Ahead(c: Config, k: Cell, w: nat): nat
    requires ConfigOk(c) && ValidCell(c, k)
  {
    if 64 * w < Slots(c, k) then Slots(c, k) - 64 * w else 0
  }

  /** How far a thread is from where it can release the lock. */
  function Distance(c: Config, k: Cell, p: Pc): nat
    requires ConfigOk(c) && ValidCell(c, k)
  {
    var g, n := Group(c, k), Slots(c, k);
    match p
    case Have(_, _) => 1
    case Unlinked(_, _, i) => if i <= g then 3 + 3 * g - i else 0
    case Emptied(_, _) => 4 + 3 * g
    case Reread(_, _, w) => 5 + 3 * g + Ahead(c, k, w)
    case Swapped(_, _, w, _) => 7 + 3 * g + n + 3 * Ahead(c, k, w)
    case Peeked(_, _, w, _) => 8 + 3 * g + n + 3 * Ahead(c, k, w)
    case Scan(_, _, w, _) => 9 + 3 * g + n + 3 * Ahead(c, k, w)
    case Tagged(_, _, m, i) => if i <= m then 1 + m - i else 0
    case Claimed(_, _, m, i) => if i <= m then 2 + m + m - i else 0
    case _ => 0
  }

  /** The next step of a thread inside a lock; it takes no slot. */
  ghost function NextStep(c: Config, s: State, v: Tid): Action
    requires ConfigOk(c)
  {
    match PcOf(s, v)
    case Scan(_, sp, w, _) => if WordOf(Get(s.at, FreeWords), sp, w) == {} then PeekZero(v) else PeekNonZero(v)
    case Peeked(_, _, _, _) => Swap(v)
    case Swapped(_, _, _, _) => Merge(v)
    case Have(_, _) => TakeBits(v, {})
    case Reread(_, sp, w) => if WordOf(Get(s.at, FreeWords), sp, w) == {} then ReadZero(v) else ReadNonZero(v)
    case Claimed(_, _, _, _) => TagRun(v)
    case Tagged(_, _, n, i) => if i < n then Tile(v) else CarveDone(v)
    case Emptied(_, _) => Unlink(v)
    case Unlinked(k, _, i) => if ValidCell(c, k) && i < Group(c, k) then Retag(v) else ResetBits(v)
    case _ => Unlock(v)
  }

  /** Slot `o`, of a span on the list of cell `k`, is free in the private bitmap. */
  ghost predicate FreeIn(c: Config, s: State, k: Cell, o: Obj)
    requires ConfigOk(c)
  {
    && ValidCell(c, k) && o.span in s.small && s.small[o.span] == k && o.slot < Slots(c, k)
    && o in Get(s.at, AllocWords) && o.span + Group(c, k) <= |s.table|
  }

  /** A step of `v` that leads closer to the release and leaves all other threads where they are. */
  ghost predicate StepCloser(c: Config, s: State, v: Tid, k: Cell, s2: State)
    requires ConfigOk(c) && ValidCell(c, k)
  {
    var p := PcOf(s2, v);
    && LockOf(p) == Some(k) && CanGo(c, k, |s.table|, p) && Distance(c, k, p) < Distance(c, k, PcOf(s, v))
    && |s2.table| == |s.table| && s2.pc == s.pc[v := p]
  }

  lemma FoldedCloser(c: Config, k: Cell, sp: nat, w: nat, job: Job, word: set<Obj>, spans: nat)
    requires ConfigOk(c) && ValidCell(c, k) && CanGo(c, k, spans, Swapped(k, sp, w, job))
    ensures var p := Folded(c, k, sp, w, job, word);
            LockOf(p) == Some(k) && CanGo(c, k, spans, p) && Distance(c, k, p) < Distance(c, k, Swapped(k, sp, w, job))
  {
    hide Size, Group, Slots;
  }

  /** Looking at a deposited word. */
  lemma PeekOn(c: Config, s: State, v: Tid, k: Cell)
    requires ConfigOk(c) && Inside(c, s, v, k) && PcOf(s, v).Scan?
    ensures Enabled(c, s, NextStep(c, s, v)) && StepCloser(c, s, v, k, Apply(c, s, NextStep(c, s, v)))
  {
    hide LargeEnabled, LargeApply, Size, Group, Slots, Tiles, Move, Put, Drop, HintHomeOk, HintClassOk, WordOf, Get, Folded, Ahead;
    var Scan(_, sp, w, job) := PcOf(s, v);
    FoldedCloser(c, k, sp, w, job, WordOf(Get(s.at, AllocWords), sp, w), |s.table|);
  }

  /** Folding it, and taking nothing. */
  lemma FoldOn(c: Config, s: State, v: Tid, k: Cell)
    requires ConfigOk(c) && Inside(c, s, v, k) && (PcOf(s, v).Peeked? || PcOf(s, v).Swapped? || PcOf(s, v).Have?)
    ensures Enabled(c, s, NextStep(c, s, v)) && StepCloser(c, s, v, k, Apply(c, s, NextStep(c, s, v)))
  {
    hide LargeEnabled, LargeApply, Size, Group, Slots, Tiles, Move, Put, Drop, HintHomeOk, HintClassOk, WordOf, Get, Folded, Ahead;
    if PcOf(s, v).Swapped? {
      var Swapped(_, sp, w, job) := PcOf(s, v);
      FoldedCloser(c, k, sp, w, job, WordOf(Get(s.at, AllocWords), sp, w) + Get(s.at, Fold(v)), |s.table|);
    }
  }

  /** Tagging and tiling a run. */
  lemma CarveOn(c: Config, s: State, v: Tid, k: Cell)
    requires ConfigOk(c) && Inside(c, s, v, k) && (PcOf(s, v).Claimed? || PcOf(s, v).Tagged?)
    ensures Enabled(c, s, NextStep(c, s, v)) && StepCloser(c, s, v, k, Apply(c, s, NextStep(c, s, v)))
  {
    hide LargeEnabled, LargeApply, Size, Group, Slots, Tiles, Move, Put, Drop, HintHomeOk, HintClassOk, WordOf, Get;
  }

  lemma AheadLess(c: Config, k: Cell, w: nat)
    requires ConfigOk(c) && ValidCell(c, k) && 64 * (w + 1) < Slots(c, k)
    ensures Ahead(c, k, w + 1) < Ahead(c, k, w)
  {
  }

  /** Looking at the deposited words again. */
  lemma RereadOn(c: Config, s: State, v: Tid, k: Cell)
    requires ConfigOk(c) && Inside(c, s, v, k) && PcOf(s, v).Reread?
    ensures Enabled(c, s, NextStep(c, s, v)) && StepCloser(c, s, v, k, Apply(c, s, NextStep(c, s, v)))
  {
    hide LargeEnabled, LargeApply, Size, Group, Slots, Tiles, Move, Put, Drop, HintHomeOk, HintClassOk, WordOf, Get, Ahead;
    var w := PcOf(s, v).w;
    if 64 * (w + 1) < Slots(c, k) { AheadLess(c, k, w); }
  }

  /** Retiring a span. */
  lemma RetireOn(c: Config, s: State, v: Tid, k: Cell)
    requires ConfigOk(c) && Inside(c, s, v, k) && (PcOf(s, v).Emptied? || PcOf(s, v).Unlinked?)
    ensures Enabled(c, s, NextStep(c, s, v)) && StepCloser(c, s, v, k, Apply(c, s, NextStep(c, s, v)))
  {
    hide LargeEnabled, LargeApply, Size, Group, Slots, Tiles, Move, Put, Drop, HintHomeOk, HintClassOk, WordOf, Get;
  }

  /** One step on: closer to the release, and nobody else has moved. */
  lemma StepOn(c: Config, s: State, v: Tid, k: Cell)
    requires ConfigOk(c) && Inside(c, s, v, k) && !PcOf(s, v).Holding?
    ensures Enabled(c, s, NextStep(c, s, v))
    ensures var s2 := Apply(c, s, NextStep(c, s, v));
            && Inside(c, s2, v, k) && Distance(c, k, PcOf(s2, v)) < Distance(c, k, PcOf(s, v))
            && |s2.table| == |s.table| && Moved(s, s2, v, PcOf(s2, v))
  {
    hide Enabled, Apply, CanGo, Distance, NextStep;
    var p := PcOf(s, v);
    if p.Scan? { PeekOn(c, s, v, k); }
    else if p.Peeked? || p.Swapped? || p.Have? { FoldOn(c, s, v, k); }
    else if p.Claimed? || p.Tagged? { CarveOn(c, s, v, k); }
    else if p.Reread? { RereadOn(c, s, v, k); }
    else { RetireOn(c, s, v, k); }
    assert forall x | x != v :: PcOf(Apply(c, s, NextStep(c, s, v)), x) == PcOf(s, x);
  }

  /** A free slot stays free, unless its own span is forgotten. */
  lemma StaysFree(c: Config, s: State, v: Tid, k: Cell, o: Obj)
    requires ConfigOk(c) && Inside(c, s, v, k) && !PcOf(s, v).Holding? && FreeIn(c, s, k, o)
    requires PcOf(s, v) != Unlinked(k, o.span, Group(c, k))
    ensures Enabled(c, s, NextStep(c, s, v)) && FreeIn(c, Apply(c, s, NextStep(c, s, v)), k, o)
  {
    hide LargeEnabled, LargeApply, Size, Group, Slots, Distance, HintHomeOk, HintClassOk, Ahead;
    StepOn(c, s, v, k);
  }

  // --- a span retired and carved again -----------------------------------------------------------

  /** Thread `v` has released the lock, and slot `o` is free. */
  ghost predicate Released(c: Config, s: State, s2: State, v: Tid, k: Cell, o: Obj)
    requires ConfigOk(c)
  {
    Moved(s, s2, v, Idle) && Unlocked(s2, k) && FreeIn(c, s2, k, o)
  }

  /** Thread `v` forgets the span of `o`, files it and takes it from the pool for a carve by the same cell. */
  lemma Reuse(c: Config, r: iset<State>, s: State, v: Tid, k: Cell, h: nat) returns (s5: State)
    requires ConfigOk(c) && Closed(c, r) && s in r && Inside(c, s, v, k) && PcOf(s, v) == Unlinked(k, h, Group(c, k))
    ensures s5 in r && Moved(s, s5, v, Claimed(k, h, Group(c, k), 0)) && |s5.table| == |s.table|
  {
    hide Group, Closed;
    var g := Group(c, k);
    var s1 := DoReset(c, r, s, v, k, h);
    var s2 := DoUnlock(c, r, s1, v);
    var s3 := DoFile(c, r, s2, v, h, g);
    assert forall x :: x != v ==> PcOf(s3, x) == PcOf(s, x);
    var s4 := DoLock(c, r, s3, v, k);
    s5 := DoClaimPool(c, r, s4, v, k, h, g);
  }

  /** Thread `v` is carving the group of `o` for cell `k`, and has not tiled it yet. */
  ghost predicate Rebuilding(c: Config, s: State, v: Tid, k: Cell, o: Obj)
    requires ConfigOk(c) && ValidCell(c, k)
  {
    var p := PcOf(s, v);
    && o.slot < Slots(c, k) && o.span + Group(c, k) <= |s.table|
    && (p.Claimed? || (p.Tagged? && p.i == 0)) && p.k == k && p.h == o.span && p.n == Group(c, k)
  }

  lemma RebuildOn(c: Config, s: State, v: Tid, k: Cell, o: Obj)
    requires ConfigOk(c) && Inside(c, s, v, k) && Rebuilding(c, s, v, k, o) && Enabled(c, s, NextStep(c, s, v))
    ensures var s2 := Apply(c, s, NextStep(c, s, v)); if PcOf(s, v).Claimed? then Rebuilding(c, s2, v, k, o) else FreeIn(c, s2, k, o)
  {
    hide LargeEnabled, LargeApply, Size, Group, Slots, Move, HintHomeOk, HintClassOk, WordOf;
  }

  /** ... and tags and tiles it, which makes `o` free again. */
  lemma {:induction false} Rebuild(c: Config, r: iset<State>, s: State, v: Tid, k: Cell, o: Obj) returns (s2: State)
    requires ConfigOk(c) && Closed(c, r) && s in r && Inside(c, s, v, k) && Rebuilding(c, s, v, k, o)
    ensures s2 in r && Moved(s, s2, v, PcOf(s2, v)) && Inside(c, s2, v, k) && FreeIn(c, s2, k, o)
    ensures Distance(c, k, PcOf(s2, v)) < Distance(c, k, PcOf(s, v))
    decreases Distance(c, k, PcOf(s, v))
  {
    hide Enabled, Apply, NextStep, Distance, Inside, FreeIn;
    assert !PcOf(s, v).Holding?;
    StepOn(c, s, v, k);
    RebuildOn(c, s, v, k, o);
    s2 := Apply(c, s, NextStep(c, s, v));
    if PcOf(s, v).Claimed? {
      s2 := Rebuild(c, r, s2, v, k, o);
    }
  }

  /** Whoever is inside a lock can get out of it by its own steps, with `o` still free. */
  lemma {:induction false} Finish(c: Config, r: iset<State>, s: State, v: Tid, k: Cell, o: Obj) returns (s2: State)
    requires ConfigOk(c) && Closed(c, r) && s in r && Inside(c, s, v, k) && FreeIn(c, s, k, o)
    ensures s2 in r && Released(c, s, s2, v, k, o)
    decreases Distance(c, k, PcOf(s, v))
  {
    if PcOf(s, v).Holding? {
      s2 := DoUnlock(c, r, s, v);
    } else if PcOf(s, v) == Unlinked(k, o.span, Group(c, k)) {
      var s1 := Reuse(c, r, s, v, k, o.span);
      s1 := Rebuild(c, r, s1, v, k, o);
      s2 := Finish(c, r, s1, v, k, o);
    } else {
      StepOn(c, s, v, k);
      StaysFree(c, s, v, k, o);
      s2 := Finish(c, r, Apply(c, s, NextStep(c, s, v)), v, k, o);
    }
  }

  /** Whoever is inside a lock can get out of it. */
  lemma {:induction false} Leave(c: Config, r: iset<State>, s: State, v: Tid, k: Cell) returns (s2: State)
    requires ConfigOk(c) && Closed(c, r) && s in r && Inside(c, s, v, k)
    ensures s2 in r && Moved(s, s2, v, Idle)
    decreases Distance(c, k, PcOf(s, v))
  {
    if PcOf(s, v).Holding? {
      s2 := DoUnlock(c, r, s, v);
    } else {
      StepOn(c, s, v, k);
      s2 := Leave(c, r, Apply(c, s, NextStep(c, s, v)), v, k);
    }
  }

  lemma RunWithin(c: Config, s: State, p: Owner, h: nat, n: nat)
    requires ConfigOk(c) && Inv(c, s) && n >= 1 && Range(h, n) <= Get(s.spans, p)
    ensures h + n <= |s.table|
  {
    hide LargeOk, SmallOk, SlotsOk;
    var i: nat := h + n - 1;
    assert i in Range(h, n) && i in Get(s.spans, p);
    assert Somewhere(s.spans, i);
  }

  lemma GroupWithin(c: Config, s: State, h: nat)
    requires ConfigOk(c) && Inv(c, s) && h in s.small
    ensures ValidCell(c, s.small[h]) && h + Group(c, s.small[h]) <= |s.table|
  {
    hide LargeOk, SlotsOk, SpansOk, TableOk, PcOk, LocksOk;
    assert SmallGroupOk(c, s.spans, s.small, h);
    RunWithin(c, s, SmallGroup(h), h, Group(c, s.small[h]));
  }

  /** Where the invariant holds, the thread inside a lock can go on. */
  lemma HolderInside(c: Config, s: State, v: Tid, k: Cell)
    requires ConfigOk(c) && Inv(c, s) && LockOf(PcOf(s, v)) == Some(k)
    ensures Inside(c, s, v, k)
  {
    hide SpansOk, LargeOk, SmallOk, SlotsOk, TableOk, Group, Slots, OwnSpan;
    assert PcOk(c, s, v);
    match PcOf(s, v) {
      case Claimed(_, h, n, _) => RunWithin(c, s, Transit(v), h, n);
      case Scan(_, sp, _, job) => if job.Count? { GroupWithin(c, s, sp); }
      case Peeked(_, sp, _, job) => if job.Count? { GroupWithin(c, s, sp); }
      case Swapped(_, sp, _, job) => if job.Count? { GroupWithin(c, s, sp); }
      case Reread(_, sp, _) => GroupWithin(c, s, sp);
      case Emptied(_, sp) => GroupWithin(c, s, sp);
      case Unlinked(_, sp, _) => GroupWithin(c, s, sp);
      case _ =>
    }
  }

  /** No lock is stuck: wherever its holder stands, and wherever all other threads stand and stay, the lock can
      be released. */
  lemma LockIsReleased(c: Config, s: State, v: Tid, k: Cell) returns (s2: State)
    requires ConfigOk(c) && Inv(c, s) && LockOf(PcOf(s, v)) == Some(k)
    ensures Reaches(c, s, s2) && Moved(s, s2, v, Idle) && Unlocked(s2, k)
  {
    HolderInside(c, s, v, k);
    ReachSelf(c, s);
    ReachableClosed(c, s);
    s2 := Leave(c, (iset x | Reaches(c, s, x)), s, v, k);
  }
}
