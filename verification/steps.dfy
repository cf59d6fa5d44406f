/** Every step of every thread keeps the invariant of the span and slot machine. The steps are taken kind by kind:
    those that move a program counter, those that move slots, those that move spans, those that write the span
    table, large runs, and tiling and retiring. For each there is what it changes, what a thread that holds another
    lock still sees, and what the span table still says. */
module Steps {
  import opened Words
  import opened Geometry
  import opened Places
  import opened Lifecycle

  // --- steps that change only a program counter or a hint ----------------------

  ghost predicate LockKept(s: State, t: Tid, p: Pc) {
    LockOf(p) == None || LockOf(p) == LockOf(PcOf(s, t)) || Unlocked(s, LockOf(p).value)
  }

  lemma LocksKept(c: Config, s: State, t: Tid, p: Pc, s2: State)
    requires LocksOk(c, s) && LockKept(s, t, p) && s2.pc == s.pc[t := p]
    requires LockOf(p).Some? ==> ValidCell(c, LockOf(p).value)
    ensures LocksOk(c, s2)
  {
    assert PcOf(s2, t) == p && forall u | u != t :: PcOf(s2, u) == PcOf(s, u);
  }

  /** A thread in the middle of neither a carve nor a retirement. */
  ghost predicate Settled(p: Pc) {
    (p.Tagged? ==> p.i >= p.n) && (p.Claimed? || p.Unlinked? ==> p.i == 0)
  }

  /** Settled threads moving on leaves the span table right. */
  lemma TableKept(c: Config, s: State, s2: State)
    requires ConfigOk(c) && TableOk(c, s)
    requires s2.small == s.small && s2.table == s.table && |s2.runSpans| == |s.runSpans|
    requires forall u :: PcOf(s2, u) == PcOf(s, u) || Settled(PcOf(s, u))
    ensures TableOk(c, s2)
  {
    forall h, i: nat | h in s.small && ValidCell(c, s.small[h]) && InGroup(c, s.small, s.small[h], h, i) && i < |s.table|
      ensures s.table[i] == Tag(s.small[h].cls, s.small[h].shard) || exists u :: Marked(s2, u, h, i)
    {
      if s.table[i] != Tag(s.small[h].cls, s.small[h].shard) {
        var u :| Marked(s, u, h, i);
        assert Marked(s2, u, h, i);
      }
    }
    forall i | 0 <= i < |s.table| && s.table[i].Tag? && s.table[i].cls != LARGE_CLASS ensures SmallTagOk(c, s2, i) {
      assert SmallTagOk(c, s, i);
      var k := Cell(s.table[i].home, s.table[i].cls);
      if !OwnSpan(c, s.small, k, i) {
        var u :| Carving(s, u, k, i);
        assert Carving(s2, u, k, i);
      }
    }
  }

  lemma PcStep(c: Config, s: State, t: Tid, p: Pc, s2: State)
    requires ConfigOk(c) && Inv(c, s) && LockKept(s, t, p) && s2 == s.(pc := s.pc[t := p], hint := s2.hint)
    requires LockOf(p).Some? ==> ValidCell(c, LockOf(p).value)
    requires Settled(PcOf(s, t))
    requires LocksOk(c, s2) ==> PcOk(c, s2, t)
    ensures Inv(c, s2)
  {
    hide SpansOk, LargeOk, SmallOk, SlotsOk, JobOk, OwnSpan;
    LocksKept(c, s, t, p, s2);
    assert forall u | u != t :: PcOf(s2, u) == PcOf(s, u);
    TableKept(c, s, s2);
    forall u ensures PcOk(c, s2, u) {
      assert u != t ==> PcOf(s2, u) == PcOf(s, u) && PcOk(c, s, u);
    }
  }

  lemma SmallMod(a: nat, b: nat)
    requires a < b
    ensures a % b == a
  {
  }

  /** A span whose table entry names cell `k` belongs to a group of `k` that is not being retired,
      as long as the thread looking holds the lock of `k` and is not itself carving. */
  lemma TagMeansOwned(c: Config, s: State, t: Tid, k: Cell, h: nat)
    requires ConfigOk(c) && Inv(c, s) && PcOf(s, t) == Holding(k) && HintHomeOk(c, s, k, h)
    ensures ValidCell(c, k) && OwnSpan(c, s.small, k, h)
  {
    assert LockOf(PcOf(s, t)) == Some(k);
    assert SmallTagOk(c, s, h);
    var k2 := Cell(s.table[h].home, s.table[h].cls);
    SmallMod(k2.shard, c.shards);
    forall u ensures !Carving(s, u, k, h) {
      assert PcOf(s, u).Tagged? && PcOf(s, u).k == k ==> LockOf(PcOf(s, u)) == LockOf(PcOf(s, t));
    }
  }

  lemma LockStep(c: Config, s: State, a: Action)
    requires ConfigOk(c) && Inv(c, s) && Enabled(c, s, a)
    requires a.Lock? || a.Unlock? || a.CarveDone?
    ensures Inv(c, Apply(c, s, a))
  {
    hide SpansOk, LargeOk, SmallOk, SlotsOk, TableOk;
    var t, s2 := a.t, Apply(c, s, a);
    assert PcOk(c, s, t);
    assert LockOf(PcOf(s, t)).Some? ==> ValidCell(c, LockOf(PcOf(s, t)).value);
    PcStep(c, s, t, PcOf(s2, t), s2);
  }

  lemma RereadStep(c: Config, s: State, a: Action)
    requires ConfigOk(c) && Inv(c, s) && Enabled(c, s, a)
    requires a.ReadZero? || a.ReadNonZero?
    ensures Inv(c, Apply(c, s, a))
  {
    hide SpansOk, LargeOk, SmallOk, SlotsOk, TableOk, OwnSpan, JobOk;
    var t, s2 := a.t, Apply(c, s, a);
    assert PcOk(c, s, t);
    assert ValidCell(c, LockOf(PcOf(s, t)).value);
    PcStep(c, s, t, PcOf(s2, t), s2);
  }

  lemma UnlinkStep(c: Config, s: State, t: Tid)
    requires ConfigOk(c) && Inv(c, s) && Enabled(c, s, Unlink(t))
    ensures Inv(c, Apply(c, s, Unlink(t)))
  {
    hide SpansOk, LargeOk, SmallOk, SlotsOk, TableOk, OwnSpan, JobOk;
    var s2 := Apply(c, s, Unlink(t));
    assert PcOk(c, s, t);
    assert ValidCell(c, LockOf(PcOf(s, t)).value);
    PcStep(c, s, t, PcOf(s2, t), s2);
  }

  lemma HintStep(c: Config, s: State, a: Action)
    requires ConfigOk(c) && Inv(c, s) && Enabled(c, s, a)
    requires a.HintRead? || a.HintWrite?
    ensures Inv(c, Apply(c, s, a))
  {
    hide SpansOk, LargeOk, SmallOk, SlotsOk, TableOk;
    var t, s2 := a.t, Apply(c, s, a);
    assert PcOk(c, s, t);
    PcStep(c, s, t, PcOf(s2, t), s2);
  }

  lemma ScanStep(c: Config, s: State, a: Action)
    requires ConfigOk(c) && Inv(c, s) && Enabled(c, s, a)
    requires a.BeginScan? || a.BeginHint? || a.BeginCheck? || a.PeekZero? || a.PeekNonZero?
    ensures Inv(c, Apply(c, s, a))
  {
    hide SpansOk, LargeOk, SmallOk, SlotsOk, TableOk;
    var t, s2 := a.t, Apply(c, s, a);
    var p := PcOf(s, t);
    assert PcOk(c, s, t);
    assert ValidCell(c, LockOf(p).value);
    if a.BeginScan? || a.BeginCheck? {
      assert InGroup(c, s.small, p.k, a.span, a.span);
    } else if a.BeginHint? {
      TagMeansOwned(c, s, t, p.k, HintOf(s, p.k));
    } else if a.PeekZero? {
      WordIsOwn(c, s, p.k, p.span);
      FoldedOk(c, s, p.k, p.span, p.w, p.job, Get(s.at, AllocWords));
    }
    PcStep(c, s, t, PcOf(s2, t), s2);
  }

  lemma {:induction false} TilesCount(sp: nat, n: nat)
    ensures |set j: nat | j < n :: Obj(sp, j)| == n
  {
    if n > 0 {
      TilesCount(sp, n - 1);
      assert (set j: nat | j < n :: Obj(sp, j)) == (set j: nat | j < n - 1 :: Obj(sp, j)) + {Obj(sp, n - 1)};
    }
  }

  /** A fold leaves its thread where it should be, `alloc` being the private bitmap after it. */
  lemma FoldedOk(c: Config, s: State, k: Cell, sp: nat, w: nat, job: Job, alloc: set<Obj>)
    requires ConfigOk(c) && ValidCell(c, k) && OwnSpan(c, s.small, k, sp) && JobOk(s.small, alloc, k, sp, w, job)
    requires forall o | o in alloc && o.span == sp :: Tiled(c, s.small, o) && s.small[sp] == k
    ensures match Folded(c, k, sp, w, job, WordOf(alloc, sp, w))
            case Have(_, word) => word <= alloc && forall o | o in word :: o.span in s.small && s.small[o.span] == k
            case Scan(_, _, w2, job2) => JobOk(s.small, alloc, k, sp, w2, job2)
            case Reread(_, _, _) => sp in s.small && s.small[sp] == k && Tiles(c, k, sp) <= alloc
            case _ => true
  {
    var word, below := WordOf(alloc, sp, w), WordsBelow(alloc, sp, w + 1);
    if job.Count? {
      assert below == WordsBelow(alloc, sp, w) + word && WordsBelow(alloc, sp, w) !! word;
      if job.n + |word| == Slots(c, k) {
        TilesCount(sp, Slots(c, k));
        SubsetCount(below, Tiles(c, k, sp));
      }
    }
  }

  /** What the alloc word of an own span holds is slots of that cell. */
  lemma WordIsOwn(c: Config, s: State, k: Cell, sp: nat)
    requires ConfigOk(c) && Inv(c, s) && ValidCell(c, k) && OwnSpan(c, s.small, k, sp)
    ensures forall o: Obj | o.span == sp && Somewhere(s.at, o) :: o.span in s.small && s.small[o.span] == k
    ensures forall o | o in Get(s.at, AllocWords) && o.span == sp :: Tiled(c, s.small, o) && s.small[sp] == k
  {
    var h: nat :| InGroup(c, s.small, k, h, sp);
    forall o: Obj | o.span == sp && Somewhere(s.at, o) ensures o.span in s.small && s.small[o.span] == k {
      assert Tiled(c, s.small, o);
      assert SmallGroupOk(c, s.spans, s.small, h) && SmallGroupOk(c, s.spans, s.small, sp);
      assert sp in Get(s.spans, SmallGroup(h)) && sp in Get(s.spans, SmallGroup(sp));
    }
    forall o | o in Get(s.at, AllocWords) && o.span == sp ensures Tiled(c, s.small, o) && s.small[sp] == k {
      assert Somewhere(s.at, o);
    }
  }

  // --- steps that move slots -----------------------------------------------------

  /** A step that moves slots and perhaps thread `t`, taking no slot out of `alloc_words` from
      under the lock of another thread, keeps every other thread's view. */
  lemma SlotStep(c: Config, s: State, t: Tid, p: Pc, s2: State, x: set<Obj>)
    requires ConfigOk(c) && Inv(c, s) && LockKept(s, t, p)
    requires s2 == s.(at := s2.at, pc := s2.pc) && ((s2.pc == s.pc && p == PcOf(s, t)) || s2.pc == s.pc[t := p])
    requires LockOf(p).Some? ==> ValidCell(c, LockOf(p).value)
    requires Settled(PcOf(s, t))
    requires Exclusive(s2.at) && forall o :: Somewhere(s2.at, o) <==> Somewhere(s.at, o)
    requires Get(s.at, AllocWords) - x <= Get(s2.at, AllocWords)
    requires forall o, u | o in x && u != t && LockOf(PcOf(s, u)).Some? ::
               !(o.span in s.small && s.small[o.span] == LockOf(PcOf(s, u)).value)
    requires forall u | u != t :: Get(s2.at, Fold(u)) == Get(s.at, Fold(u))
    requires LocksOk(c, s2) ==> PcOk(c, s2, t)
    ensures Inv(c, s2)
  {
    assert forall u | u != t :: PcOf(s2, u) == PcOf(s, u);
    assert PcOf(s2, t) == p;
    TableKept(c, s, s2);
    assert LocksOk(c, s2) by {
      if s2.pc == s.pc[t := p] { LocksKept(c, s, t, p, s2); }
    }
    forall u ensures PcOk(c, s2, u) {
      if u != t {
        OtherSees(c, s, s2, u, x);
      }
    }
    assert SlotsOk(c, s2.at, s2.small) by {
      assert forall o :: Somewhere(s.at, o) <==> Tiled(c, s.small, o);
    }
  }

  lemma OtherSees(c: Config, s: State, s2: State, u: Tid, x: set<Obj>)
    requires ConfigOk(c) && LocksOk(c, s) && LocksOk(c, s2) && PcOk(c, s, u)
    requires s2 == s.(at := s2.at, pc := s2.pc) && PcOf(s2, u) == PcOf(s, u)
    requires Get(s.at, AllocWords) - x <= Get(s2.at, AllocWords)
    requires forall o | o in x && LockOf(PcOf(s, u)).Some? ::
               !(o.span in s.small && s.small[o.span] == LockOf(PcOf(s, u)).value)
    requires Get(s2.at, Fold(u)) == Get(s.at, Fold(u))
    ensures PcOk(c, s2, u)
  {
    CountKept(s.small, Get(s.at, AllocWords), s2.small, Get(s2.at, AllocWords), PcOf(s, u), x);
  }

  /** Slots of other cells leaving the private bitmap do not disturb a count. */
  lemma CountKept(small: map<nat, Cell>, alloc: set<Obj>, small2: map<nat, Cell>, alloc2: set<Obj>, p: Pc, x: set<Obj>)
    requires p.Scan? || p.Peeked? || p.Swapped? ==> JobOk(small, alloc, p.k, p.span, p.w, p.job)
    requires alloc - x <= alloc2 && forall o | o in x && LockOf(p).Some? :: !(o.span in small && small[o.span] == LockOf(p).value)
    requires forall h | h in small && LockOf(p) == Some(small[h]) :: h in small2 && small2[h] == small[h]
    ensures p.Scan? || p.Peeked? || p.Swapped? ==> JobOk(small2, alloc2, p.k, p.span, p.w, p.job)
  {
    if (p.Scan? || p.Peeked? || p.Swapped?) && p.job.Count? {
      assert LockOf(p) == Some(p.k);
      SubsetCount(WordsBelow(alloc, p.span, p.w), WordsBelow(alloc2, p.span, p.w));
    }
  }

  lemma SwapStep(c: Config, s: State, t: Tid)
    requires ConfigOk(c) && Inv(c, s) && Enabled(c, s, Swap(t))
    ensures Inv(c, Apply(c, s, Swap(t)))
  {
    hide SpansOk, LargeOk, SmallOk, TableOk, OwnSpan, JobOk;
    var s2 := Apply(c, s, Swap(t));
    var p := PcOf(s, t);
    assert PcOk(c, s, t);
    assert LockOf(p).Some? && ValidCell(c, p.k);
    MoveKeeps(s.at, FreeWords, Fold(t), WordOf(Get(s.at, FreeWords), p.span, p.w));
    SlotStep(c, s, t, PcOf(s2, t), s2, {});
  }

  lemma MergeStep(c: Config, s: State, t: Tid)
    requires ConfigOk(c) && Inv(c, s) && Enabled(c, s, Merge(t))
    ensures Inv(c, Apply(c, s, Merge(t)))
  {
    hide Inv;
    Merged(c, s, t, Apply(c, s, Merge(t)));
  }

  /** What a merge does: the swapped bits are in the private word, and the thread has folded it. */
  ghost predicate Merges(c: Config, s: State, t: Tid, s2: State)
    requires ConfigOk(c)
  {
    && PcOf(s, t).Swapped? && ValidCell(c, PcOf(s, t).k)
    && var Swapped(k, sp, w, job) := PcOf(s, t);
    var incoming := Get(s.at, Fold(t));
    s2 == s.(at := Move(s.at, Fold(t), AllocWords, incoming),
             pc := s.pc[t := Folded(c, k, sp, w, job, WordOf(Get(s.at, AllocWords), sp, w) + incoming)])
  }

  lemma Merged(c: Config, s: State, t: Tid, s2: State)
    requires ConfigOk(c) && Inv(c, s) && Merges(c, s, t, s2)
    ensures Inv(c, s2)
  {
    hide SpansOk, LargeOk, SmallOk, TableOk, OwnSpan, JobOk, Folded, PcOk;
    MoveKeeps(s.at, Fold(t), AllocWords, Get(s.at, Fold(t)));
    MergedPc(c, s, t, s2);
    SlotStep(c, s, t, PcOf(s2, t), s2, {});
  }

  lemma MergedPc(c: Config, s: State, t: Tid, s2: State)
    requires ConfigOk(c) && Inv(c, s) && Merges(c, s, t, s2)
    ensures LocksOk(c, s2) ==> PcOk(c, s2, t)
    ensures LockOf(PcOf(s2, t)) == LockOf(PcOf(s, t)) == Some(PcOf(s, t).k)
  {
    hide SpansOk, LargeOk, SmallOk, TableOk, SlotsOk, OwnSpan, JobOk;
    assert PcOk(c, s, t);
    assert Get(s2.at, Fold(t)) == {} && s2.small == s.small;
    MergedOk(c, s, t, Get(s2.at, AllocWords));
  }

  lemma MergedOk(c: Config, s: State, t: Tid, alloc: set<Obj>)
    requires ConfigOk(c) && Inv(c, s) && PcOf(s, t).Swapped? && ValidCell(c, PcOf(s, t).k)
    requires alloc == Get(s.at, AllocWords) + Get(s.at, Fold(t))
    ensures var p := PcOf(s, t);
            && WordOf(Get(s.at, AllocWords), p.span, p.w) + Get(s.at, Fold(t)) == WordOf(alloc, p.span, p.w)
            && OwnSpan(c, s.small, p.k, p.span)
            && match Folded(c, p.k, p.span, p.w, p.job, WordOf(alloc, p.span, p.w))
               case Have(_, word) => word <= alloc && forall o | o in word :: o.span in s.small && s.small[o.span] == p.k
               case Scan(_, _, w2, job2) => JobOk(s.small, alloc, p.k, p.span, w2, job2)
               case Reread(_, _, _) => p.span in s.small && s.small[p.span] == p.k && Tiles(c, p.k, p.span) <= alloc
               case _ => true
  {
    hide SpansOk, LargeOk, SmallOk, TableOk, JobOk, Folded;
    var p := PcOf(s, t);
    assert PcOk(c, s, t);
    WordIsOwn(c, s, p.k, p.span);
    forall o | o in alloc && o.span == p.span ensures Tiled(c, s.small, o) && s.small[p.span] == p.k {
      assert Somewhere(s.at, o);
    }
    CountKept(s.small, Get(s.at, AllocWords), s.small, alloc, p, {});
    FoldedOk(c, s, p.k, p.span, p.w, p.job, alloc);
  }

  lemma TakeStep(c: Config, s: State, t: Tid, x: set<Obj>)
    requires ConfigOk(c) && Inv(c, s) && Enabled(c, s, TakeBits(t, x))
    ensures Inv(c, Apply(c, s, TakeBits(t, x)))
  {
    hide SpansOk, LargeOk, SmallOk, TableOk, OwnSpan, JobOk;
    var s2 := Apply(c, s, TakeBits(t, x));
    var p := PcOf(s, t);
    assert PcOk(c, s, t);
    assert LockOf(p).Some? && ValidCell(c, p.k);
    MoveKeeps(s.at, AllocWords, Out(t), x);
    SlotStep(c, s, t, PcOf(s2, t), s2, x);
  }

  /** An atomic take through a hint that names any span of the class, wherever it is homed. */
  lemma ForeignTakeStep(c: Config, s: State, t: Tid, f: set<Obj>, x: set<Obj>)
    requires ConfigOk(c) && Inv(c, s) && Enabled(c, s, ForeignTake(t, f, x))
    ensures Inv(c, Apply(c, s, ForeignTake(t, f, x)))
  {
    var s2 := Apply(c, s, ForeignTake(t, f, x));
    assert PcOk(c, s, t);
    MoveKeeps(s.at, FreeWords, AllocWords, f);
    MoveKeeps(Move(s.at, FreeWords, AllocWords, f), AllocWords, Out(t), x);
    SlotStep(c, s, t, PcOf(s, t), s2, x);
  }

  lemma PrivateStep(c: Config, s: State, a: Action)
    requires ConfigOk(c) && Inv(c, s) && Enabled(c, s, a)
    requires a.Hand? || a.Deposit?
    ensures Inv(c, Apply(c, s, a))
  {
    var s2 := Apply(c, s, a);
    if a.Hand? {
      MoveKeeps(s.at, a.p, a.q, a.x);
    } else {
      MoveKeeps(s.at, Mask(a.t), FreeWords, WordOf(Get(s.at, Mask(a.t)), a.span, a.w));
    }
    QuietStep(c, s, s2);
  }

  /** Slots moving without any thread moving, none leaving `alloc_words` or a fold. */
  lemma QuietStep(c: Config, s: State, s2: State)
    requires ConfigOk(c) && Inv(c, s) && s2 == s.(at := s2.at)
    requires Exclusive(s2.at) && forall o :: Somewhere(s2.at, o) <==> Somewhere(s.at, o)
    requires Get(s.at, AllocWords) <= Get(s2.at, AllocWords)
    requires forall u :: Get(s2.at, Fold(u)) == Get(s.at, Fold(u))
    ensures Inv(c, s2)
  {
    assert forall u :: PcOf(s2, u) == PcOf(s, u);
    forall u ensures PcOk(c, s2, u) {
      assert PcOk(c, s, u);
      OtherSees(c, s, s2, u, {});
    }
    assert forall o :: Somewhere(s.at, o) <==> Tiled(c, s.small, o);
    TableKept(c, s, s2);
  }

  // --- steps that move spans -----------------------------------------------------

  /** Spans moving among the uncarved, the pool and thread `t`. */
  lemma SpanStep(c: Config, s: State, t: Tid, p: Pc, s2: State)
    requires ConfigOk(c) && Inv(c, s) && LockKept(s, t, p) && Settled(PcOf(s, t))
    requires s2 == s.(spans := s2.spans, cursor := s2.cursor, pc := s2.pc)
    requires (s2.pc == s.pc && p == PcOf(s, t)) || s2.pc == s.pc[t := p]
    requires LockOf(p).Some? ==> ValidCell(c, LockOf(p).value)
    requires SpansOk(c, s2.spans, s2.cursor)
    requires forall o: Owner | o.LargeRun? || o.SmallGroup? || (o.Transit? && o.t != t) ::
               Get(s2.spans, o) == Get(s.spans, o)
    requires LocksOk(c, s2) ==> PcOk(c, s2, t)
    ensures Inv(c, s2)
  {
    hide SlotsOk, TableOk, JobOk, OwnSpan;
    assert forall u | u != t :: PcOf(s2, u) == PcOf(s, u);
    assert PcOf(s2, t) == p;
    assert LocksOk(c, s2) by {
      if s2.pc == s.pc[t := p] { LocksKept(c, s, t, p, s2); }
    }
    TableKept(c, s, s2);
    forall h: nat ensures LargeRunOk(s2.spans, s2.large, s2.runSpans, s2.table, h) {
      assert LargeRunOk(s.spans, s.large, s.runSpans, s.table, h);
    }
    forall h: nat ensures SmallGroupOk(c, s2.spans, s2.small, h) {
      assert SmallGroupOk(c, s.spans, s.small, h);
    }
    forall u ensures PcOk(c, s2, u) {
      assert u != t ==> PcOk(c, s, u) && Get(s2.spans, Transit(u)) == Get(s.spans, Transit(u));
    }
  }

  lemma SpansMoved(c: Config, s: State, p: Owner, q: Owner, x: set<nat>)
    requires SpansOk(c, s.spans, s.cursor) && x <= Get(s.spans, p) && p != Uncarved && q != Uncarved
    ensures SpansOk(c, Move(s.spans, p, q, x), s.cursor)
  {
    MoveKeeps(s.spans, p, q, x);
  }

  lemma SpansBumped(c: Config, s: State, t: Tid, n: nat)
    requires SpansOk(c, s.spans, s.cursor) && s.cursor + n <= c.numSpans
    ensures SpansOk(c, Move(s.spans, Uncarved, Transit(t), Range(s.cursor, n)), s.cursor + n)
  {
    MoveKeeps(s.spans, Uncarved, Transit(t), Range(s.cursor, n));
  }

  lemma ClaimPoolStep(c: Config, s: State, t: Tid, h: nat, n: nat)
    requires ConfigOk(c) && Inv(c, s) && Enabled(c, s, ClaimPool(t, h, n))
    ensures Inv(c, Apply(c, s, ClaimPool(t, h, n)))
  {
    hide LargeOk, SmallOk, SlotsOk, TableOk, OwnSpan, JobOk, FullyFree;
    assert PcOk(c, s, t);
    SpansMoved(c, s, Pool, Transit(t), Range(h, n));
    SpanStep(c, s, t, Claimed(PcOf(s, t).k, h, n, 0), Apply(c, s, ClaimPool(t, h, n)));
  }

  lemma ClaimBumpStep(c: Config, s: State, t: Tid, n: nat)
    requires ConfigOk(c) && Inv(c, s) && Enabled(c, s, ClaimBump(t, n))
    ensures Inv(c, Apply(c, s, ClaimBump(t, n)))
  {
    hide LargeOk, SmallOk, SlotsOk, TableOk, OwnSpan, JobOk, FullyFree;
    assert PcOk(c, s, t);
    SpansBumped(c, s, t, n);
    SpanStep(c, s, t, Claimed(PcOf(s, t).k, s.cursor, n, 0), Apply(c, s, ClaimBump(t, n)));
  }

  lemma LargePoolStep(c: Config, s: State, t: Tid, h: nat, n: nat)
    requires ConfigOk(c) && Inv(c, s) && Enabled(c, s, LargePool(t, h, n))
    ensures Inv(c, Apply(c, s, LargePool(t, h, n)))
  {
    hide Inv;
    TakenForLarge(c, s, t, Pool, h, n, Apply(c, s, LargePool(t, h, n)));
  }

  lemma LargeBumpStep(c: Config, s: State, t: Tid, n: nat)
    requires ConfigOk(c) && Inv(c, s) && Enabled(c, s, LargeBump(t, n))
    ensures Inv(c, Apply(c, s, LargeBump(t, n)))
  {
    hide Inv;
    TakenForLarge(c, s, t, Uncarved, s.cursor, n, Apply(c, s, LargeBump(t, n)));
  }

  lemma TakenForLarge(c: Config, s: State, t: Tid, o: Owner, h: nat, n: nat, s2: State)
    requires ConfigOk(c) && Inv(c, s) && PcOf(s, t) == Idle && n >= 1
    requires if o == Pool then Range(h, n) <= Get(s.spans, Pool) else o == Uncarved && h == s.cursor && h + n <= c.numSpans
    requires s2 == s.(spans := Move(s.spans, o, Transit(t), Range(h, n)), cursor := if o == Pool then s.cursor else s.cursor + n,
                      pc := s.pc[t := LargeGot(h, n)])
    ensures Inv(c, s2)
  {
    hide LargeOk, SmallOk, SlotsOk, TableOk, OwnSpan, JobOk, FullyFree;
    assert PcOk(c, s, t);
    if o == Pool {
      SpansMoved(c, s, Pool, Transit(t), Range(h, n));
    } else {
      SpansBumped(c, s, t, n);
    }
    SpanStep(c, s, t, LargeGot(h, n), s2);
  }

  lemma LargeFileStep(c: Config, s: State, t: Tid)
    requires ConfigOk(c) && Inv(c, s) && Enabled(c, s, LargeFile(t))
    ensures Inv(c, Apply(c, s, LargeFile(t)))
  {
    hide LargeOk, SmallOk, SlotsOk, TableOk, OwnSpan, JobOk, FullyFree;
    var s2 := Apply(c, s, LargeFile(t));
    assert PcOk(c, s, t);
    SpansMoved(c, s, Transit(t), Pool, Range(PcOf(s, t).h, PcOf(s, t).n));
    SpanStep(c, s, t, Idle, s2);
  }

  /** A sweep filing one retired run. The thread is idle and stays so. */
  lemma FileStep(c: Config, s: State, t: Tid, h: nat, n: nat)
    requires ConfigOk(c) && Inv(c, s) && Enabled(c, s, FileRun(t, h, n))
    ensures Inv(c, Apply(c, s, FileRun(t, h, n)))
  {
    hide LargeOk, SmallOk, SlotsOk, TableOk, OwnSpan, JobOk, FullyFree;
    var s2 := Apply(c, s, FileRun(t, h, n));
    assert PcOk(c, s, t);
    SpansMoved(c, s, Transit(t), Pool, Range(h, n));
    SpanStep(c, s, t, Idle, s2);
  }

  // --- steps that write the span table --------------------------------------------

  lemma TransitInBounds(c: Config, s: State, o: Owner, h: nat, n: nat)
    requires SpansOk(c, s.spans, s.cursor) && n >= 1 && Range(h, n) <= Get(s.spans, o)
    ensures h + n <= c.numSpans
  {
    var last: nat := h + n - 1;
    assert last in Range(h, n);
    assert last in Get(s.spans, o);
    assert Somewhere(s.spans, last);
  }

  /** A thread writes the entry of a span that is in its hands, or in a group it is retiring. */
  ghost predicate WritesOwn(s: State, t: Tid, o: Owner, j: nat) {
    var p := PcOf(s, t);
    && j in Get(s.spans, o) && j < |s.table|
    && if o.SmallGroup? then p.Unlinked? && p.span == o.h && o.h in s.small && s.small[o.h] == p.k else o == Transit(t) && !p.Unlinked?
  }

  lemma OthersTags(c: Config, s: State, s2: State, t: Tid, o: Owner, j: nat, tag: Tag)
    requires ConfigOk(c) && Inv(c, s) && WritesOwn(s, t, o, j) && s2 == s.(table := s.table[j := tag], pc := s2.pc)
    requires LocksOk(c, s2) && forall u | u != t :: PcOf(s2, u) == PcOf(s, u)
    ensures forall u | u != t :: PcOk(c, s2, u)
  {
    hide LargeOk, SlotsOk, TableOk, OwnSpan, JobOk, FullGroup;
    forall u | u != t ensures PcOk(c, s2, u) {
      assert PcOk(c, s, u);
      var p := PcOf(s, u);
      assert j in Get(s.spans, Transit(u)) ==> o == Transit(u);
      if p.Claimed? || p.Tagged? || p.LargeNoted? {
        assert j !in Get(s.spans, Transit(u));
      } else if p.Unlinked? {
        assert LockOf(p) == Some(p.k) && SmallGroupOk(c, s.spans, s.small, p.span);
        assert o != SmallGroup(p.span);
        assert j !in Get(s.spans, SmallGroup(p.span));
      }
    }
  }

  lemma LargeRunsTags(c: Config, s: State, t: Tid, o: Owner, j: nat, tag: Tag)
    requires ConfigOk(c) && Inv(c, s) && WritesOwn(s, t, o, j)
    ensures LargeOk(s.spans, s.large, s.runSpans, s.table[j := tag])
  {
    var table := s.table[j := tag];
    forall g: nat ensures LargeRunOk(s.spans, s.large, s.runSpans, table, g) {
      assert LargeRunOk(s.spans, s.large, s.runSpans, s.table, g);
      assert j !in Get(s.spans, LargeRun(g));
    }
  }

  /** One entry written: it says LARGE_CLASS, or names the cell that is carving the span. */
  lemma TagStep(c: Config, s: State, t: Tid, p: Pc, s2: State, o: Owner, j: nat, tag: Tag)
    requires ConfigOk(c) && Inv(c, s) && WritesOwn(s, t, o, j) && LockOf(p) == LockOf(PcOf(s, t))
    requires s2 == s.(table := s.table[j := tag], pc := s.pc[t := p])
    requires tag == LARGE || exists k :: ValidCell(c, k) && tag == Tag(k.cls, k.shard) && Carving(s2, t, k, j)
    requires forall k, i: nat | Carving(s, t, k, i) :: Carving(s2, t, k, i)
    requires o.SmallGroup? ==> p.Unlinked? && p.span == o.h && forall i: nat | i == j || Marked(s, t, o.h, i) :: Marked(s2, t, o.h, i)
    requires LocksOk(c, s2) ==> PcOk(c, s2, t)
    ensures Inv(c, s2)
  {
    hide LargeOk, SlotsOk, PcOk, OwnSpan;
    assert forall u | u != t :: PcOf(s2, u) == PcOf(s, u);
    assert LockOf(p).Some? ==> ValidCell(c, LockOf(p).value);
    LocksKept(c, s, t, p, s2);
    OthersTags(c, s, s2, t, o, j, tag);
    LargeRunsTags(c, s, t, o, j, tag);
    TagsKept(c, s, t, p, s2, o, j, tag);
    forall i: nat | i < |s2.table| && s2.table[i].Tag? && s2.table[i].cls != LARGE_CLASS ensures SmallTagOk(c, s2, i) {
      if i != j {
        assert SmallTagOk(c, s, i);
        var k2 := Cell(s.table[i].home, s.table[i].cls);
        if !OwnSpan(c, s.small, k2, i) {
          var u :| Carving(s, u, k2, i);
          assert Carving(s2, u, k2, i);
        }
      }
    }
  }

  lemma TagsKept(c: Config, s: State, t: Tid, p: Pc, s2: State, o: Owner, j: nat, tag: Tag)
    requires ConfigOk(c) && Inv(c, s) && WritesOwn(s, t, o, j)
    requires s2 == s.(table := s.table[j := tag], pc := s.pc[t := p])
    requires o.SmallGroup? ==> p.Unlinked? && p.span == o.h && forall i: nat | i == j || Marked(s, t, o.h, i) :: Marked(s2, t, o.h, i)
    ensures forall g, i: nat | g in s.small && ValidCell(c, s.small[g]) && InGroup(c, s.small, s.small[g], g, i) && i < |s.table| ::
              s2.table[i] == Tag(s.small[g].cls, s.small[g].shard) || exists u :: Marked(s2, u, g, i)
  {
    hide LargeOk, SlotsOk, PcOk, OwnSpan, SmallTagOk;
    assert forall u | u != t :: PcOf(s2, u) == PcOf(s, u);
    forall g, i: nat | g in s.small && ValidCell(c, s.small[g]) && InGroup(c, s.small, s.small[g], g, i) && i < |s.table|
      ensures s2.table[i] == Tag(s.small[g].cls, s.small[g].shard) || exists u :: Marked(s2, u, g, i)
    {
      assert SmallGroupOk(c, s.spans, s.small, g);
      if i == j {
        assert o == SmallGroup(g) && Marked(s2, t, g, i);
      } else if s.table[i] != Tag(s.small[g].cls, s.small[g].shard) {
        var u :| Marked(s, u, g, i);
        assert Marked(s2, u, g, i);
      }
    }
  }

  lemma TagRunStep(c: Config, s: State, t: Tid)
    requires ConfigOk(c) && Inv(c, s) && Enabled(c, s, TagRun(t))
    ensures Inv(c, Apply(c, s, TagRun(t)))
  {
    hide SpansOk, LargeOk, SmallOk, SlotsOk, TableOk;
    var s2 := Apply(c, s, TagRun(t));
    assert PcOk(c, s, t);
    var Claimed(k, h, n, i) := PcOf(s, t);
    assert LockOf(PcOf(s, t)) == Some(k);
    assert h + i in Range(h, n);
    assert ValidCell(c, k) && Carving(s2, t, k, h + i);
    TagStep(c, s, t, PcOf(s2, t), s2, Transit(t), h + i, Tag(k.cls, k.shard));
  }

  lemma RetagStep(c: Config, s: State, t: Tid)
    requires ConfigOk(c) && Inv(c, s) && Enabled(c, s, Retag(t))
    ensures Inv(c, Apply(c, s, Retag(t)))
  {
    hide SpansOk, LargeOk, SlotsOk, TableOk;
    var s2 := Apply(c, s, Retag(t));
    assert PcOk(c, s, t);
    var Unlinked(k, sp, i) := PcOf(s, t);
    assert SmallGroupOk(c, s.spans, s.small, sp);
    assert sp + i in Range(sp, Group(c, k));
    TagStep(c, s, t, PcOf(s2, t), s2, SmallGroup(sp), sp + i, LARGE);
  }

  lemma LargeTagStep(c: Config, s: State, t: Tid)
    requires ConfigOk(c) && Inv(c, s) && Enabled(c, s, LargeTag(t))
    ensures Inv(c, Apply(c, s, LargeTag(t)))
  {
    hide SpansOk, LargeOk, SmallOk, SlotsOk, TableOk;
    var s2 := Apply(c, s, LargeTag(t));
    assert PcOk(c, s, t);
    var LargeNoted(h, n, i) := PcOf(s, t);
    assert h + i in Range(h, n);
    TagStep(c, s, t, PcOf(s2, t), s2, Transit(t), h + i, LARGE);
  }

  /** Small-class entries that a step only erases stay right while carves and groups stay. */
  lemma SmallTagsAfter(c: Config, s: State, s2: State)
    requires ConfigOk(c) && TableOk(c, s) && |s2.table| == |s.table|
    requires forall i | 0 <= i < |s2.table| && s2.table[i].Tag? && s2.table[i].cls != LARGE_CLASS :: s2.table[i] == s.table[i]
    requires forall i: nat, k | i < |s2.table| && s2.table[i].Tag? && s2.table[i].cls != LARGE_CLASS && ValidCell(c, k)
               && OwnSpan(c, s.small, k, i) :: OwnSpan(c, s2.small, k, i)
    requires forall u, k, i: nat | Carving(s, u, k, i) && ValidCell(c, k) ::
               Carving(s2, u, k, i) || OwnSpan(c, s2.small, k, i)
    ensures forall i | 0 <= i < |s2.table| && s2.table[i].Tag? && s2.table[i].cls != LARGE_CLASS :: SmallTagOk(c, s2, i)
  {
    forall i: nat | i < |s2.table| && s2.table[i].Tag? && s2.table[i].cls != LARGE_CLASS ensures SmallTagOk(c, s2, i) {
      assert SmallTagOk(c, s, i);
      var k := Cell(s.table[i].home, s.table[i].cls);
      if OwnSpan(c, s.small, k, i) {
        assert OwnSpan(c, s2.small, k, i);
      } else {
        var u :| Carving(s, u, k, i);
        assert Carving(s2, u, k, i) || OwnSpan(c, s2.small, k, i);
      }
    }
  }

  // --- large runs --------------------------------------------------------------------

  /** What a thread other than `t` sees survives a step of `t` that stays within the spans in its
      hands and the groups of the cell `k` it has locked. */
  lemma OthersKept(c: Config, s: State, s2: State, t: Tid, k: Option<Cell>, x: set<Obj>)
    requires ConfigOk(c) && Inv(c, s) && LocksOk(c, s2) && k == LockOf(PcOf(s, t)) && s2.table == s.table
    requires forall u | u != t ::
               && PcOf(s2, u) == PcOf(s, u) && Get(s2.spans, Transit(u)) == Get(s.spans, Transit(u))
               && Get(s2.at, Fold(u)) == Get(s.at, Fold(u))
    requires Get(s.at, AllocWords) - x <= Get(s2.at, AllocWords)
    requires forall o | o in x :: o.span in s.small && k == Some(s.small[o.span])
    requires forall h | h in s.small && k != Some(s.small[h]) :: h in s2.small && s2.small[h] == s.small[h]
    requires forall u, h | u != t && h in Get(s.spans, Transit(u)) && h < |s.runSpans| ::
               h < |s2.runSpans| && s2.runSpans[h] == s.runSpans[h]
    ensures forall u | u != t :: PcOk(c, s2, u)
  {
    hide SlotsOk, TableOk, SpansOk, LargeOk, SmallOk, JobOk;
    forall u | u != t ensures PcOk(c, s2, u) {
      assert PcOk(c, s, u);
      var p := PcOf(s, u);
      if LockOf(p).Some? {
        assert LockOf(p) != k;
        if p.Scan? || p.Peeked? || p.Swapped? {
          var h: nat :| InGroup(c, s.small, p.k, h, p.span);
          assert InGroup(c, s2.small, p.k, h, p.span);
          CountKept(s.small, Get(s.at, AllocWords), s2.small, Get(s2.at, AllocWords), p, x);
        }
      } else if p.LargeNoted? {
        assert p.h in Range(p.h, p.n);
      }
    }
  }

  lemma SmallGroupsKept(c: Config, spans: Layout<Owner, nat>, small: map<nat, Cell>, p: Owner, q: Owner, x: set<nat>)
    requires ConfigOk(c) && SmallOk(c, spans, small) && !p.SmallGroup? && !q.SmallGroup?
    ensures SmallOk(c, Move(spans, p, q, x), small)
  {
    forall g: nat ensures SmallGroupOk(c, Move(spans, p, q, x), small, g) {
      assert SmallGroupOk(c, spans, small, g);
    }
  }

  lemma LargeRecordStep(c: Config, s: State, t: Tid)
    requires ConfigOk(c) && Inv(c, s) && Enabled(c, s, LargeRecord(t))
    ensures Inv(c, Apply(c, s, LargeRecord(t)))
  {
    hide SmallOk, SlotsOk, TableOk;
    var s2 := Apply(c, s, LargeRecord(t));
    assert PcOk(c, s, t);
    var LargeGot(h, n) := PcOf(s, t);
    assert h in Range(h, n);
    LocksKept(c, s, t, LargeNoted(h, n, 0), s2);
    TableKept(c, s, s2);
    forall g: nat ensures LargeRunOk(s2.spans, s2.large, s2.runSpans, s2.table, g) {
      assert LargeRunOk(s.spans, s.large, s.runSpans, s.table, g);
      assert g in s.large ==> g in Range(g, s.large[g]);
    }
    OthersKept(c, s, s2, t, None, {});
    assert PcOk(c, s2, t);
  }

  lemma LargeRecorded(c: Config, s: State, t: Tid, h: nat, n: nat)
    requires ConfigOk(c) && Inv(c, s) && PcOf(s, t) == LargeNoted(h, n, n)
    ensures LargeOk(Move(s.spans, Transit(t), LargeRun(h), Range(h, n)), s.large[h := n], s.runSpans, s.table)
  {
    var spans, large := Move(s.spans, Transit(t), LargeRun(h), Range(h, n)), s.large[h := n];
    assert PcOk(c, s, t);
    TransitInBounds(c, s, Transit(t), h, n);
    assert h in Range(h, n) && h in Get(s.spans, Transit(t));
    assert LargeRunOk(s.spans, s.large, s.runSpans, s.table, h);
    forall g: nat ensures LargeRunOk(spans, large, s.runSpans, s.table, g) {
      assert LargeRunOk(s.spans, s.large, s.runSpans, s.table, g);
    }
  }

  lemma LargeDoneStep(c: Config, s: State, t: Tid)
    requires ConfigOk(c) && Inv(c, s) && Enabled(c, s, LargeDone(t))
    ensures Inv(c, Apply(c, s, LargeDone(t)))
  {
    hide SpansOk, LargeOk, SmallOk, SlotsOk, TableOk;
    var s2 := Apply(c, s, LargeDone(t));
    assert PcOk(c, s, t);
    var LargeNoted(h, n, _) := PcOf(s, t);
    LocksKept(c, s, t, Idle, s2);
    LargeRecorded(c, s, t, h, n);
    SpansMoved(c, s, Transit(t), LargeRun(h), Range(h, n));
    SmallGroupsKept(c, s.spans, s.small, Transit(t), LargeRun(h), Range(h, n));
    TableKept(c, s, s2);
    OthersKept(c, s, s2, t, None, {});
    assert PcOk(c, s2, t);
  }

  lemma LargeSwapped(c: Config, s: State, t: Tid, h: nat)
    requires ConfigOk(c) && Inv(c, s) && h in s.large
    ensures s.large[h] >= 1 && h + s.large[h] <= |s.table| == |s.runSpans| && s.runSpans[h] == s.large[h]
    ensures Range(h, s.large[h]) <= Get(s.spans, LargeRun(h))
    ensures LargeOk(Move(s.spans, LargeRun(h), Transit(t), Range(h, s.large[h])), s.large - {h}, s.runSpans[h := 0], s.table)
  {
    var spans := Move(s.spans, LargeRun(h), Transit(t), Range(h, s.large[h]));
    assert LargeRunOk(s.spans, s.large, s.runSpans, s.table, h);
    var large, runSpans := s.large - {h}, s.runSpans[h := 0];
    forall g: nat ensures LargeRunOk(spans, large, runSpans, s.table, g) {
      assert LargeRunOk(s.spans, s.large, s.runSpans, s.table, g);
    }
  }

  lemma NotInTransit(c: Config, s: State, h: nat)
    requires ConfigOk(c) && Inv(c, s) && h in s.large
    ensures forall u :: h !in Get(s.spans, Transit(u))
  {
    assert LargeRunOk(s.spans, s.large, s.runSpans, s.table, h);
    assert h in Get(s.spans, LargeRun(h));
  }

  lemma LargeSwapStep(c: Config, s: State, t: Tid, h: nat)
    requires ConfigOk(c) && Inv(c, s) && Enabled(c, s, LargeSwap(t, h))
    ensures Inv(c, Apply(c, s, LargeSwap(t, h)))
  {
    hide Inv;
    LargeSwapped(c, s, t, h);
    SwappedOk(c, s, t, h, s.large[h], Apply(c, s, LargeSwap(t, h)));
  }

  lemma SwappedOk(c: Config, s: State, t: Tid, h: nat, n: nat, s2: State)
    requires ConfigOk(c) && Inv(c, s) && PcOf(s, t) == Idle && h in s.large && n == s.large[h] && h < |s.runSpans|
    requires s2 == s.(runSpans := s.runSpans[h := 0], large := s.large - {h},
                      spans := Move(s.spans, LargeRun(h), Transit(t), Range(h, n)), pc := s.pc[t := LargeFreed(h, n)])
    ensures Inv(c, s2)
  {
    hide SpansOk, LargeOk, SmallOk, SlotsOk, TableOk, JobOk, OwnSpan;
    assert PcOk(c, s, t);
    LargeSwapped(c, s, t, h);
    LocksKept(c, s, t, LargeFreed(h, n), s2);
    SpansMoved(c, s, LargeRun(h), Transit(t), Range(h, n));
    SmallGroupsKept(c, s.spans, s.small, LargeRun(h), Transit(t), Range(h, n));
    TableKept(c, s, s2);
    NotInTransit(c, s, h);
    OthersKept(c, s, s2, t, None, {});
    assert PcOk(c, s2, t);
  }

  // --- tiling and retiring ----------------------------------------------------------

  lemma TileStep(c: Config, s: State, t: Tid)
    requires ConfigOk(c) && Inv(c, s) && Enabled(c, s, Tile(t))
    ensures Inv(c, Apply(c, s, Tile(t)))
  {
    assert PcOk(c, s, t);
    var Tagged(k, h, n, i) := PcOf(s, t);
    assert LockOf(PcOf(s, t)) == Some(k);
    if Group(c, k) == 1 {
      TileSpan(c, s, t);
    } else {
      TileGroup(c, s, t);
    }
  }

  lemma TileSpan(c: Config, s: State, t: Tid)
    requires ConfigOk(c) && Inv(c, s) && Enabled(c, s, Tile(t)) && PcOk(c, s, t) && Group(c, PcOf(s, t).k) == 1
    ensures Inv(c, TileNext(c, s, t))
  {
    hide Inv;
    var Tagged(k, h, n, i) := PcOf(s, t);
    TileOne(c, s, t, k, h + i, 1, Tagged(k, h, n, i + 1), TileNext(c, s, t));
  }

  lemma TileGroup(c: Config, s: State, t: Tid)
    requires ConfigOk(c) && Inv(c, s) && Enabled(c, s, Tile(t)) && PcOk(c, s, t) && Group(c, PcOf(s, t).k) > 1
    ensures Inv(c, TileNext(c, s, t))
  {
    var Tagged(k, h, n, i) := PcOf(s, t);
    TileOne(c, s, t, k, h, n, Tagged(k, h, n, n), TileNext(c, s, t));
  }

  lemma TileOne(c: Config, s: State, t: Tid, k: Cell, g: nat, m: nat, p: Pc, s2: State)
    requires ConfigOk(c) && Inv(c, s) && ValidCell(c, k) && LockOf(PcOf(s, t)) == Some(k) == LockOf(p)
    requires m == Group(c, k) && Range(g, m) <= Get(s.spans, Transit(t))
    requires s2 == s.(small := s.small[g := k], spans := Move(s.spans, Transit(t), SmallGroup(g), Range(g, m)),
                      at := Put(s.at, AllocWords, Tiles(c, k, g)), pc := s.pc[t := p])
    requires PcOf(s, t).Tagged? && p.Tagged?
    requires forall j: nat | g <= j < g + m && j < |s.table| :: s.table[j] == Tag(k.cls, k.shard)
    requires forall j: nat | Carving(s, t, k, j) :: g <= j < g + m || Carving(s2, t, k, j)
    requires Get(s.at, Fold(t)) == {} && p.i <= p.n && FullGroup(c, k, p.n) && (Group(c, k) > 1 ==> p.i == p.n)
    requires PcOf(s, t).h == p.h && PcOf(s, t).n == p.n && PcOf(s, t).i <= p.i
    requires p.h + p.i >= g + m
    ensures Inv(c, s2)
  {
    hide SpansOk, LargeOk, SmallOk, SlotsOk, TableOk;
    assert PcOk(c, s, t);
    LocksKept(c, s, t, p, s2);
    assert forall u | u != t :: PcOf(s2, u) == PcOf(s, u);
    assert PcOf(s2, t) == p;
    NotYetTiled(c, s, t, g, m);
    SpansMoved(c, s, Transit(t), SmallGroup(g), Range(g, m));
    TiledLayouts(c, s, t, k, g, m);
    GrownTable(c, s, s2, t, k, g, m);
    OthersKept(c, s, s2, t, Some(k), {});
    assert PcOk(c, s2, t);
  }

  lemma TiledLayouts(c: Config, s: State, t: Tid, k: Cell, g: nat, m: nat)
    requires ConfigOk(c) && Inv(c, s) && ValidCell(c, k) && m == Group(c, k) && Range(g, m) <= Get(s.spans, Transit(t))
    requires g !in s.small && forall o: Obj | o.span == g :: !Somewhere(s.at, o)
    ensures var spans := Move(s.spans, Transit(t), SmallGroup(g), Range(g, m));
            && LargeOk(spans, s.large, s.runSpans, s.table) && SmallOk(c, spans, s.small[g := k])
    ensures SlotsOk(c, Put(s.at, AllocWords, Tiles(c, k, g)), s.small[g := k])
  {
    var spans := Move(s.spans, Transit(t), SmallGroup(g), Range(g, m));
    var at := Put(s.at, AllocWords, Tiles(c, k, g));
    PutKeeps(s.at, AllocWords, Tiles(c, k, g));
    forall j: nat ensures LargeRunOk(spans, s.large, s.runSpans, s.table, j) {
      assert LargeRunOk(s.spans, s.large, s.runSpans, s.table, j);
    }
    var small := s.small[g := k];
    forall j: nat ensures SmallGroupOk(c, spans, small, j) {
      assert SmallGroupOk(c, s.spans, s.small, j);
    }
    forall o ensures Somewhere(at, o) <==> Tiled(c, s.small[g := k], o) {
      assert Somewhere(s.at, o) <==> Tiled(c, s.small, o);
    }
  }

  lemma OwnSpanGrows(c: Config, small: map<nat, Cell>, g: nat, k: Cell, k2: Cell, sp: nat)
    requires ConfigOk(c) && ValidCell(c, k2) && g !in small
    ensures OwnSpan(c, small, k2, sp) ==> OwnSpan(c, small[g := k], k2, sp)
  {
    if OwnSpan(c, small, k2, sp) {
      var h: nat :| InGroup(c, small, k2, h, sp);
      assert InGroup(c, small[g := k], k2, h, sp);
    }
  }

  /** A span in transit is not a tiled head, and none of its slots is anywhere. */
  lemma NotYetTiled(c: Config, s: State, t: Tid, g: nat, m: nat)
    requires ConfigOk(c) && Inv(c, s) && m >= 1 && Range(g, m) <= Get(s.spans, Transit(t))
    ensures g !in s.small && forall o: Obj | o.span == g :: !Somewhere(s.at, o)
    ensures g + m <= c.numSpans
  {
    TransitInBounds(c, s, Transit(t), g, m);
    assert g in Range(g, m) && g in Get(s.spans, Transit(t));
    assert SmallGroupOk(c, s.spans, s.small, g);
    assert g in s.small ==> g in Get(s.spans, SmallGroup(g));
    forall o: Obj | o.span == g ensures !Somewhere(s.at, o) {
      assert Somewhere(s.at, o) <==> Tiled(c, s.small, o);
    }
  }

  lemma GrownTable(c: Config, s: State, s2: State, t: Tid, k: Cell, g: nat, m: nat)
    requires ConfigOk(c) && Inv(c, s) && ValidCell(c, k) && g !in s.small && m == Group(c, k)
    requires s2.table == s.table && s2.runSpans == s.runSpans && s2.small == s.small[g := k]
    requires forall u | u != t :: PcOf(s2, u) == PcOf(s, u)
    requires PcOf(s, t).Tagged? && PcOf(s, t).k == k
    requires forall j: nat | g <= j < g + m && j < |s.table| :: s.table[j] == Tag(k.cls, k.shard)
    requires forall j: nat | Carving(s, t, k, j) :: g <= j < g + m || Carving(s2, t, k, j)
    ensures TableOk(c, s2)
  {
    forall h, i: nat | h in s2.small && ValidCell(c, s2.small[h]) && InGroup(c, s2.small, s2.small[h], h, i) && i < |s.table|
      ensures s2.table[i] == Tag(s2.small[h].cls, s2.small[h].shard) || exists u :: Marked(s2, u, h, i)
    {
      if h != g && s.table[i] != Tag(s.small[h].cls, s.small[h].shard) {
        assert InGroup(c, s.small, s.small[h], h, i);
        var u :| Marked(s, u, h, i);
        assert Marked(s2, u, h, i);
      }
    }
    forall i: nat, k2 | ValidCell(c, k2) && OwnSpan(c, s.small, k2, i) ensures OwnSpan(c, s2.small, k2, i) {
      OwnSpanGrows(c, s.small, g, k, k2, i);
    }
    forall u, k2, i: nat | Carving(s, u, k2, i) && ValidCell(c, k2)
      ensures Carving(s2, u, k2, i) || OwnSpan(c, s2.small, k2, i)
    {
      if g <= i < g + m && u == t { assert InGroup(c, s2.small, k, g, i); }
    }
    SmallTagsAfter(c, s, s2);
  }

  lemma ResetStep(c: Config, s: State, t: Tid)
    requires ConfigOk(c) && Inv(c, s) && Enabled(c, s, ResetBits(t))
    ensures Inv(c, Apply(c, s, ResetBits(t)))
  {
    hide SpansOk, LargeOk, SlotsOk, TableOk, OwnSpan, JobOk, Move, Drop, Tiles;
    var s2 := Apply(c, s, ResetBits(t));
    assert PcOk(c, s, t);
    var k, sp := PcOf(s, t).k, PcOf(s, t).span;
    assert LockOf(PcOf(s, t)) == Some(k);
    LocksKept(c, s, t, Holding(k), s2);
    assert forall u | u != t :: PcOf(s2, u) == PcOf(s, u);
    assert PcOf(s2, t) == Holding(k);
    var n := Group(c, k);
    assert SmallGroupOk(c, s.spans, s.small, sp);
    SpansMoved(c, s, SmallGroup(sp), Transit(t), Range(sp, n));
    RetiredLayouts(c, s, t, k, sp);
    RetiredTable(c, s, s2, t, k, sp);
    OthersKept(c, s, s2, t, Some(k), Tiles(c, k, sp));
    assert PcOk(c, s2, t);
  }

  lemma OwnSpanShrinks(c: Config, small: map<nat, Cell>, g: nat, k2: Cell, i: nat)
    requires ConfigOk(c) && ValidCell(c, k2) && OwnSpan(c, small, k2, i)
    requires !InGroup(c, small, k2, g, i)
    ensures OwnSpan(c, small - {g}, k2, i)
  {
    var h: nat :| InGroup(c, small, k2, h, i);
    assert InGroup(c, small - {g}, k2, h, i);
  }

  lemma RetiredLayouts(c: Config, s: State, t: Tid, k: Cell, sp: nat)
    requires ConfigOk(c) && Inv(c, s) && ValidCell(c, k) && FullyFree(c, s, k, sp)
    ensures var spans := Move(s.spans, SmallGroup(sp), Transit(t), Range(sp, Group(c, k)));
            && LargeOk(spans, s.large, s.runSpans, s.table) && SmallOk(c, spans, s.small - {sp})
            && forall u | u != t :: Get(spans, Transit(u)) == Get(s.spans, Transit(u))
    ensures var at := Drop(Drop(s.at, AllocWords, Tiles(c, k, sp)), FreeWords, Tiles(c, k, sp));
            && SlotsOk(c, at, s.small - {sp})
            && Get(at, AllocWords) == Get(s.at, AllocWords) - Tiles(c, k, sp)
            && forall u :: Get(at, Fold(u)) == Get(s.at, Fold(u))
  {
    hide SpansOk, TableOk, PcOk, LocksOk;
    var spans := Move(s.spans, SmallGroup(sp), Transit(t), Range(sp, Group(c, k)));
    forall j: nat ensures LargeRunOk(spans, s.large, s.runSpans, s.table, j) {
      assert LargeRunOk(s.spans, s.large, s.runSpans, s.table, j);
    }
    var small := s.small - {sp};
    forall j: nat ensures SmallGroupOk(c, spans, small, j) {
      assert SmallGroupOk(c, s.spans, s.small, j);
    }
    var x := Tiles(c, k, sp);
    var a1 := Drop(s.at, AllocWords, x);
    var at := Drop(a1, FreeWords, x);
    DropKeeps(s.at, AllocWords, x);
    forall o | o in x ensures o !in Get(a1, FreeWords) {
      assert o in Get(s.at, AllocWords);
    }
    assert Get(at, FreeWords) == Get(a1, FreeWords);
    DropKeeps(a1, FreeWords, {});
    SameLayout(at, Drop(a1, FreeWords, {}));
    forall o ensures Somewhere(at, o) <==> Tiled(c, s.small - {sp}, o) {
      assert Somewhere(s.at, o) <==> Tiled(c, s.small, o);
    }
  }

  lemma SameLayout(m: Layout<Place, Obj>, n: Layout<Place, Obj>)
    requires Exclusive(n) && forall p :: Get(m, p) == Get(n, p)
    ensures Exclusive(m) && forall o :: Somewhere(m, o) <==> Somewhere(n, o)
  {
    forall p, q, e | e in Get(m, p) && e in Get(m, q) ensures p == q {
      assert e in Get(n, p) && e in Get(n, q);
    }
    forall o ensures Somewhere(m, o) <==> Somewhere(n, o) {
      if Somewhere(m, o) {
        var p :| o in Get(m, p);
        assert o in Get(n, p);
      }
      if Somewhere(n, o) {
        var p :| o in Get(n, p);
        assert o in Get(m, p);
      }
    }
  }

  lemma RetiredTable(c: Config, s: State, s2: State, t: Tid, k: Cell, sp: nat)
    requires ConfigOk(c) && Inv(c, s) && ValidCell(c, k) && PcOf(s, t) == Unlinked(k, sp, Group(c, k))
    requires s2.table == s.table && s2.runSpans == s.runSpans && s2.small == s.small - {sp}
    requires forall u | u != t :: PcOf(s2, u) == PcOf(s, u)
    ensures TableOk(c, s2)
  {
    assert PcOk(c, s, t);
    forall h, i: nat | h in s2.small && ValidCell(c, s2.small[h]) && InGroup(c, s2.small, s2.small[h], h, i) && i < |s.table|
      ensures s2.table[i] == Tag(s2.small[h].cls, s2.small[h].shard) || exists u :: Marked(s2, u, h, i)
    {
      if s.table[i] != Tag(s.small[h].cls, s.small[h].shard) {
        assert InGroup(c, s.small, s.small[h], h, i);
        var u :| Marked(s, u, h, i);
        assert Marked(s2, u, h, i);
      }
    }
    forall i: nat, k2 | i < |s2.table| && s2.table[i].Tag? && s2.table[i].cls != LARGE_CLASS && ValidCell(c, k2)
        && OwnSpan(c, s.small, k2, i) ensures OwnSpan(c, s2.small, k2, i) {
      OwnSpanShrinks(c, s.small, sp, k2, i);
    }
    forall u, k2, i: nat | Carving(s, u, k2, i) && ValidCell(c, k2)
      ensures Carving(s2, u, k2, i) || OwnSpan(c, s2.small, k2, i)
    {
      assert u != t;
    }
    SmallTagsAfter(c, s, s2);
  }

  // --- every step ----------------------------------------------------------

  predicate OnSlots(a: Action) {
    a.Lock? || a.Unlock? || a.BeginScan? || a.BeginHint? || a.BeginCheck? || a.PeekZero? || a.PeekNonZero? || a.Swap? || a.Merge?
    || a.TakeBits? || a.ForeignTake? || a.Hand? || a.Deposit? || a.HintRead? || a.HintWrite? || a.SetHint?
  }

  lemma SlotActionKeepsInv(c: Config, s: State, a: Action)
    requires ConfigOk(c) && Inv(c, s) && Enabled(c, s, a) && OnSlots(a)
    ensures Inv(c, Apply(c, s, a))
  {
    if a.Lock? || a.Unlock? {
      LockStep(c, s, a);
    } else if a.BeginScan? || a.BeginHint? || a.BeginCheck? || a.PeekZero? || a.PeekNonZero? {
      ScanStep(c, s, a);
    } else if a.Swap? {
      SwapStep(c, s, a.t);
    } else if a.Merge? {
      MergeStep(c, s, a.t);
    } else if a.TakeBits? {
      TakeStep(c, s, a.t, a.x);
    } else if a.ForeignTake? {
      ForeignTakeStep(c, s, a.t, a.folded, a.x);
    } else if a.Hand? || a.Deposit? {
      PrivateStep(c, s, a);
    } else if a.SetHint? {
      SetHintStep(c, s, a.k, a.span);
    } else {
      HintStep(c, s, a);
    }
  }

  lemma SpanActionKeepsInv(c: Config, s: State, a: Action)
    requires ConfigOk(c) && Inv(c, s) && Enabled(c, s, a) && !OnSlots(a)
    ensures Inv(c, Apply(c, s, a))
  {
    match a {
      case ClaimPool(t, h, n) => ClaimPoolStep(c, s, t, h, n);
      case ClaimBump(t, n) => ClaimBumpStep(c, s, t, n);
      case TagRun(t) => TagRunStep(c, s, t);
      case Tile(t) => TileStep(c, s, t);
      case CarveDone(_) => LockStep(c, s, a);
      case ReadZero(_) => RereadStep(c, s, a);
      case ReadNonZero(_) => RereadStep(c, s, a);
      case Unlink(t) => UnlinkStep(c, s, t);
      case Retag(t) => RetagStep(c, s, t);
      case ResetBits(t) => ResetStep(c, s, t);
      case FileRun(t, h, n) => FileStep(c, s, t, h, n);
      case LargePool(t, h, n) => LargePoolStep(c, s, t, h, n);
      case LargeBump(t, n) => LargeBumpStep(c, s, t, n);
      case LargeRecord(t) => LargeRecordStep(c, s, t);
      case LargeTag(t) => LargeTagStep(c, s, t);
      case LargeDone(t) => LargeDoneStep(c, s, t);
      case LargeSwap(t, h) => LargeSwapStep(c, s, t, h);
      case LargeFile(t) => LargeFileStep(c, s, t);
    }
  }

  lemma SetHintStep(c: Config, s: State, k: Cell, sp: nat)
    requires ConfigOk(c) && Inv(c, s)
    ensures Inv(c, Apply(c, s, SetHint(k, sp)))
  {
    hide SpansOk, LargeOk, SmallOk, SlotsOk, JobOk, OwnSpan;
    var s2 := Apply(c, s, SetHint(k, sp));
    assert forall u :: PcOf(s2, u) == PcOf(s, u);
    TableKept(c, s, s2);
    forall u ensures PcOk(c, s2, u) {
      assert PcOk(c, s, u);
    }
  }
}
