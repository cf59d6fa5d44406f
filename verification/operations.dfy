/** Whole operations of spans and slots. */
module Operations {
  // What allocating, freeing, carving and sweeping get done when the thread is left alone, wherever all other threads
  // stand meanwhile.

  import opened Words
  import opened Geometry
  import opened Places
  import opened Lifecycle
  import opened Steps
  import opened Safety
  import opened Moves
  import opened Finishing

  /** Taking the actions `acts` from `s` leads to `s2`. */
  ghost predicate Does(c: Config, s: State, acts: seq<Action>, s2: State)
    requires ConfigOk(c)
  {
    CanRun(c, s, acts) && After(c, s, acts) == s2
  }

  lemma One(c: Config, s: State, a: Action)
    requires ConfigOk(c) && Enabled(c, s, a)
    ensures Does(c, s, [a], Apply(c, s, a))
  {
    var s2 := Apply(c, s, a);
    assert [a][1..] == [] && CanRun(c, s2, []) && After(c, s2, []) == s2;
    assert After(c, s, [a]) == After(c, s2, [a][1..]);
  }

  lemma Then(c: Config, s: State, xs: seq<Action>, s1: State, ys: seq<Action>, s2: State)
    requires ConfigOk(c) && Does(c, s, xs, s1) && Does(c, s1, ys, s2)
    ensures Does(c, s, xs + ys, s2)
  {
    RunAppend(c, s, xs, ys);
  }

  lemma ThenOne(c: Config, s: State, xs: seq<Action>, s1: State, a: Action)
    requires ConfigOk(c) && Does(c, s, xs, s1) && Enabled(c, s1, a)
    ensures Does(c, s, xs + [a], Apply(c, s1, a))
  {
    One(c, s1, a);
    Then(c, s, xs, s1, [a], Apply(c, s1, a));
  }

  // --- large runs -----------------------------------------------------------------------------------

  /** From `m` to `m2` exactly `x` has moved from `p` to `q`. */
  ghost predicate Shifted<P(!new), E>(m: Layout<P, E>, m2: Layout<P, E>, p: P, q: P, x: set<E>) {
    forall r :: Get(m2, r) == if r == q then Get(m, q) + x else if r == p then Get(m, p) - x else Get(m, r)
  }

  lemma SwapLength(c: Config, s: State, t: Tid, h: nat) returns (s1: State)
    requires ConfigOk(c) && PcOf(s, t) == Idle && h in s.large && h < |s.runSpans|
    ensures Does(c, s, [LargeSwap(t, h)], s1) && Moved(s, s1, t, LargeFreed(h, s.runSpans[h]))
    ensures s1 == s.(pc := s1.pc, runSpans := s.runSpans[h := 0], large := s.large - {h}, spans := s1.spans)
    ensures Shifted(s.spans, s1.spans, LargeRun(h), Transit(t), Range(h, s.runSpans[h]))
  {
    s1 := Apply(c, s, LargeSwap(t, h));
    GetMove(s.spans, LargeRun(h), Transit(t), Range(h, s.runSpans[h]));
    One(c, s, LargeSwap(t, h));
  }

  lemma FileFreed(c: Config, s: State, t: Tid) returns (s1: State)
    requires ConfigOk(c) && PcOf(s, t).LargeFreed?
    ensures Does(c, s, [LargeFile(t)], s1) && Moved(s, s1, t, Idle) && s1 == s.(pc := s1.pc, spans := s1.spans)
    ensures var LargeFreed(h, n) := PcOf(s, t); Shifted(s.spans, s1.spans, Transit(t), Pool, Range(h, n))
  {
    s1 := Apply(c, s, LargeFile(t));
    GetMove(s.spans, Transit(t), Pool, Range(PcOf(s, t).h, PcOf(s, t).n));
    One(c, s, LargeFile(t));
  }

  /** Freeing a live large run puts exactly its spans back into the pool, and leaves none in the thread's hands. */
  lemma LargeFree(c: Config, s: State, t: Tid, h: nat) returns (s2: State)
    requires ConfigOk(c) && Inv(c, s) && PcOf(s, t) == Idle && h in s.large
    ensures Does(c, s, [LargeSwap(t, h), LargeFile(t)], s2)
    ensures Shifted(s.spans, s2.spans, LargeRun(h), Pool, Range(h, s.large[h])) && Get(s2.spans, LargeRun(h)) == {}
    ensures s2.large == s.large - {h} && h < |s.runSpans| && s2.runSpans == s.runSpans[h := 0]
    ensures Moved(s, s2, t, Idle) && s2 == s.(spans := s2.spans, large := s2.large, runSpans := s2.runSpans, pc := s2.pc)
  {
    hide Does, SmallOk, SlotsOk, TableOk, LocksOk, PcOk;
    assert LargeRunOk(s.spans, s.large, s.runSpans, s.table, h);
    var s1 := SwapLength(c, s, t, h);
    s2 := FileFreed(c, s1, t);
    TransitApart(c, s, t, LargeRun(h), Range(h, s.large[h]));
    Then(c, s, [LargeSwap(t, h)], s1, [LargeFile(t)], s2);
    assert [LargeSwap(t, h)] + [LargeFile(t)] == [LargeSwap(t, h), LargeFile(t)];
  }

  /** What is elsewhere is not in transit. */
  lemma TransitApart(c: Config, s: State, t: Tid, p: Owner, x: set<nat>)
    requires ConfigOk(c) && Inv(c, s) && p != Transit(t) && x <= Get(s.spans, p)
    ensures Get(s.spans, Transit(t)) - x == Get(s.spans, Transit(t))
  {
  }

  lemma MarkOne(c: Config, s: State, t: Tid) returns (s1: State)
    requires ConfigOk(c) && PcOf(s, t).LargeNoted? && PcOf(s, t).i < PcOf(s, t).n && PcOf(s, t).h + PcOf(s, t).n <= |s.table|
    ensures var LargeNoted(h, n, i) := PcOf(s, t);
            && Does(c, s, [LargeTag(t)], s1) && Moved(s, s1, t, LargeNoted(h, n, i + 1))
            && s1 == s.(pc := s1.pc, table := s.table[h + i := LARGE])
  {
    s1 := Apply(c, s, LargeTag(t));
    One(c, s, LargeTag(t));
  }

  /** The marking of a large run, entry by entry. */
  lemma {:induction false} MarkAll(c: Config, s: State, t: Tid) returns (s2: State)
    requires ConfigOk(c) && PcOf(s, t).LargeNoted? && PcOf(s, t).i <= PcOf(s, t).n && PcOf(s, t).h + PcOf(s, t).n <= |s.table|
    ensures var LargeNoted(h, n, i) := PcOf(s, t);
            && Does(c, s, seq(n - i, _ => LargeTag(t)), s2) && Moved(s, s2, t, LargeNoted(h, n, n))
            && s2 == s.(table := s2.table, pc := s2.pc) && |s2.table| == |s.table|
            && forall j | 0 <= j < |s.table| :: s2.table[j] == if h + i <= j < h + n then LARGE else s.table[j]
    decreases PcOf(s, t).n - PcOf(s, t).i
  {
    var LargeNoted(h, n, i) := PcOf(s, t);
    if i == n {
      s2 := s;
      assert seq(n - i, _ => LargeTag(t)) == [];
    } else {
      var s1 := MarkOne(c, s, t);
      s2 := MarkAll(c, s1, t);
      Then(c, s, [LargeTag(t)], s1, seq(n - i - 1, _ => LargeTag(t)), s2);
      assert [LargeTag(t)] + seq(n - i - 1, _ => LargeTag(t)) == seq(n - i, _ => LargeTag(t));
    }
  }

  lemma RecordLength(c: Config, s: State, t: Tid) returns (s1: State)
    requires ConfigOk(c) && PcOf(s, t).LargeGot? && PcOf(s, t).h < |s.runSpans|
    ensures var LargeGot(h, n) := PcOf(s, t);
            && Does(c, s, [LargeRecord(t)], s1) && Moved(s, s1, t, LargeNoted(h, n, 0))
            && s1 == s.(pc := s1.pc, runSpans := s.runSpans[h := n])
  {
    s1 := Apply(c, s, LargeRecord(t));
    One(c, s, LargeRecord(t));
  }

  lemma Own(c: Config, s: State, t: Tid) returns (s1: State)
    requires ConfigOk(c) && PcOf(s, t).LargeNoted? && PcOf(s, t).i == PcOf(s, t).n
    ensures var LargeNoted(h, n, _) := PcOf(s, t);
            && Does(c, s, [LargeDone(t)], s1) && Moved(s, s1, t, Idle) && s1 == s.(pc := s1.pc, large := s.large[h := n], spans := s1.spans)
            && Shifted(s.spans, s1.spans, Transit(t), LargeRun(h), Range(h, n))
  {
    s1 := Apply(c, s, LargeDone(t));
    GetMove(s.spans, Transit(t), LargeRun(PcOf(s, t).h), Range(PcOf(s, t).h, PcOf(s, t).n));
    One(c, s, LargeDone(t));
  }

  /** From a run just claimed to a live one: its length is recorded, its entries are marked, and it owns its spans. */
  lemma MakeLarge(c: Config, s: State, t: Tid) returns (s2: State)
    requires ConfigOk(c) && PcOf(s, t).LargeGot? && PcOf(s, t).h + PcOf(s, t).n <= |s.table| == |s.runSpans| && PcOf(s, t).n >= 1
    ensures var LargeGot(h, n) := PcOf(s, t);
            && Does(c, s, [LargeRecord(t)] + seq(n, _ => LargeTag(t)) + [LargeDone(t)], s2) && Moved(s, s2, t, Idle)
            && Shifted(s.spans, s2.spans, Transit(t), LargeRun(h), Range(h, n))
            && s2.large == s.large[h := n] && s2.runSpans == s.runSpans[h := n] && |s2.table| == |s.table|
            && (forall j | 0 <= j < |s.table| :: s2.table[j] == if h <= j < h + n then LARGE else s.table[j])
            && s2 == s.(spans := s2.spans, large := s2.large, runSpans := s2.runSpans, table := s2.table, pc := s2.pc)
  {
    hide Does, Shifted;
    var LargeGot(h, n) := PcOf(s, t);
    var s0 := RecordLength(c, s, t);
    var s1 := MarkAll(c, s0, t);
    s2 := Own(c, s1, t);
    Then(c, s, [LargeRecord(t)], s0, seq(n, _ => LargeTag(t)), s1);
    Then(c, s, [LargeRecord(t)] + seq(n, _ => LargeTag(t)), s1, [LargeDone(t)], s2);
  }

  /** What a large allocation of `n` spans at `h`, taken from `p`, gets done. */
  ghost predicate LargeMade(s: State, s2: State, t: Tid, p: Owner, h: nat, n: nat) {
    && Shifted(s.spans, s2.spans, p, LargeRun(h), Range(h, n)) && Get(s2.spans, LargeRun(h)) == Range(h, n)
    && s2.large == s.large[h := n] && h !in s.large && h < |s.runSpans| && s2.runSpans == s.runSpans[h := n]
    && |s2.table| == |s.table| && (forall j | 0 <= j < |s.table| :: s2.table[j] == if h <= j < h + n then LARGE else s.table[j])
    && s2.at == s.at && s2.small == s.small && s2.hint == s.hint && Moved(s, s2, t, Idle)
  }

  lemma ClaimLarge(c: Config, s: State, t: Tid, a: Action, p: Owner, h: nat, n: nat) returns (s1: State)
    requires ConfigOk(c) && Inv(c, s) && PcOf(s, t) == Idle && n >= 1 && Range(h, n) <= Get(s.spans, p)
    requires (a == LargePool(t, h, n) && p == Pool) || (a == LargeBump(t, n) && p == Uncarved && h == s.cursor && h + n <= c.numSpans)
    ensures Does(c, s, [a], s1) && Moved(s, s1, t, LargeGot(h, n)) && Shifted(s.spans, s1.spans, p, Transit(t), Range(h, n))
    ensures s1 == s.(pc := s1.pc, spans := s1.spans, cursor := if a.LargeBump? then s.cursor + n else s.cursor)
  {
    hide Inv;
    s1 := Apply(c, s, a);
    GetMove(s.spans, p, Transit(t), Range(h, n));
    One(c, s, a);
  }

  lemma LargeFrom(c: Config, s: State, t: Tid, a: Action, p: Owner, h: nat, n: nat) returns (s2: State)
    requires ConfigOk(c) && Inv(c, s) && PcOf(s, t) == Idle && n >= 1 && Range(h, n) <= Get(s.spans, p)
    requires (a == LargePool(t, h, n) && p == Pool) || (a == LargeBump(t, n) && p == Uncarved && h == s.cursor && h + n <= c.numSpans)
    ensures Does(c, s, [a] + ([LargeRecord(t)] + seq(n, _ => LargeTag(t)) + [LargeDone(t)]), s2)
    ensures LargeMade(s, s2, t, p, h, n) && s2.cursor == if a.LargeBump? then s.cursor + n else s.cursor
  {
    hide Does, Inv;
    RunWithin(c, s, p, h, n);
    NotLive(c, s, p, h, n);
    var s1 := ClaimLarge(c, s, t, a, p, h, n);
    s2 := MakeLarge(c, s1, t);
    TransitApart(c, s, t, p, Range(h, n));
    Then(c, s, [a], s1, [LargeRecord(t)] + seq(n, _ => LargeTag(t)) + [LargeDone(t)], s2);
  }

  /** A large allocation from the pool. */
  lemma LargeFromPool(c: Config, s: State, t: Tid, h: nat, n: nat) returns (s2: State)
    requires ConfigOk(c) && Inv(c, s) && PcOf(s, t) == Idle && n >= 1 && Range(h, n) <= Get(s.spans, Pool)
    ensures Does(c, s, [LargePool(t, h, n)] + ([LargeRecord(t)] + seq(n, _ => LargeTag(t)) + [LargeDone(t)]), s2)
    ensures LargeMade(s, s2, t, Pool, h, n) && s2.cursor == s.cursor
  {
    s2 := LargeFrom(c, s, t, LargePool(t, h, n), Pool, h, n);
  }

  /** ... and from the bump cursor, which moves past the run. */
  lemma LargeFromCursor(c: Config, s: State, t: Tid, n: nat) returns (s2: State)
    requires ConfigOk(c) && Inv(c, s) && PcOf(s, t) == Idle && n >= 1 && s.cursor + n <= c.numSpans
    ensures Does(c, s, [LargeBump(t, n)] + ([LargeRecord(t)] + seq(n, _ => LargeTag(t)) + [LargeDone(t)]), s2)
    ensures LargeMade(s, s2, t, Uncarved, s.cursor, n) && s2.cursor == s.cursor + n
  {
    assert Range(s.cursor, n) <= Get(s.spans, Uncarved);
    s2 := LargeFrom(c, s, t, LargeBump(t, n), Uncarved, s.cursor, n);
  }

  /** No live run starts where spans are elsewhere. */
  lemma NotLive(c: Config, s: State, p: Owner, h: nat, n: nat)
    requires ConfigOk(c) && Inv(c, s) && !p.LargeRun? && n >= 1 && Range(h, n) <= Get(s.spans, p)
    ensures h !in s.large && Get(s.spans, LargeRun(h)) == {} && |s.table| == |s.runSpans|
  {
    assert LargeRunOk(s.spans, s.large, s.runSpans, s.table, h);
    assert h in Range(h, n);
  }

  /** A run in a thread's hands goes to the pool. */
  lemma RunFiled(c: Config, s: State, t: Tid, h: nat, n: nat) returns (s2: State)
    requires ConfigOk(c) && PcOf(s, t) == Idle && n >= 1 && Range(h, n) <= Get(s.spans, Transit(t))
    ensures Does(c, s, [FileRun(t, h, n)], s2) && s2 == s.(spans := s2.spans) && Shifted(s.spans, s2.spans, Transit(t), Pool, Range(h, n))
  {
    s2 := Apply(c, s, FileRun(t, h, n));
    GetMove(s.spans, Transit(t), Pool, Range(h, n));
    One(c, s, FileRun(t, h, n));
  }

  // --- slots ----------------------------------------------------------------------------------------

  lemma Locked(c: Config, s: State, t: Tid, k: Cell) returns (s1: State)
    requires ConfigOk(c) && PcOf(s, t) == Idle && ValidCell(c, k) && Unlocked(s, k)
    ensures Does(c, s, [Lock(t, k)], s1) && s1 == s.(pc := s1.pc) && Moved(s, s1, t, Holding(k))
  {
    s1 := Apply(c, s, Lock(t, k));
    One(c, s, Lock(t, k));
  }

  lemma Released(c: Config, s: State, t: Tid) returns (s1: State)
    requires ConfigOk(c) && PcOf(s, t).Holding?
    ensures Does(c, s, [Unlock(t)], s1) && s1 == s.(pc := s1.pc) && Moved(s, s1, t, Idle)
  {
    s1 := Apply(c, s, Unlock(t));
    One(c, s, Unlock(t));
  }

  /** The steps of a fold of word `w` of span `sp`. */
  ghost function FoldActs(s: State, t: Tid, sp: nat, w: nat): seq<Action> {
    if WordOf(Get(s.at, FreeWords), sp, w) == {} then [PeekZero(t)] else [PeekNonZero(t), Swap(t), Merge(t)]
  }

  lemma Peek(c: Config, s: State, t: Tid) returns (s1: State, a: Action)
    requires ConfigOk(c) && PcOf(s, t).Scan? && ValidCell(c, PcOf(s, t).k)
    ensures var Scan(k, sp, w, job) := PcOf(s, t);
            && Does(c, s, [a], s1) && s1 == s.(pc := s1.pc)
            && (if WordOf(Get(s.at, FreeWords), sp, w) == {}
                then a == PeekZero(t) && Moved(s, s1, t, Folded(c, k, sp, w, job, WordOf(Get(s.at, AllocWords), sp, w)))
                else a == PeekNonZero(t) && Moved(s, s1, t, Peeked(k, sp, w, job)))
  {
    a := if WordOf(Get(s.at, FreeWords), PcOf(s, t).span, PcOf(s, t).w) == {} then PeekZero(t) else PeekNonZero(t);
    s1 := Apply(c, s, a);
    One(c, s, a);
  }

  lemma SwappedOut(c: Config, s: State, t: Tid) returns (s1: State)
    requires ConfigOk(c) && PcOf(s, t).Peeked?
    ensures var Peeked(k, sp, w, job) := PcOf(s, t);
            && Does(c, s, [Swap(t)], s1) && s1 == s.(pc := s1.pc, at := s1.at) && Moved(s, s1, t, Swapped(k, sp, w, job))
            && Shifted(s.at, s1.at, FreeWords, Fold(t), WordOf(Get(s.at, FreeWords), sp, w))
  {
    s1 := Apply(c, s, Swap(t));
    GetMove(s.at, FreeWords, Fold(t), WordOf(Get(s.at, FreeWords), PcOf(s, t).span, PcOf(s, t).w));
    One(c, s, Swap(t));
  }

  lemma MergedIn(c: Config, s: State, t: Tid) returns (s1: State)
    requires ConfigOk(c) && PcOf(s, t).Swapped? && ValidCell(c, PcOf(s, t).k)
    ensures var Swapped(k, sp, w, job) := PcOf(s, t);
            && Does(c, s, [Merge(t)], s1) && s1 == s.(pc := s1.pc, at := s1.at)
            && Moved(s, s1, t, Folded(c, k, sp, w, job, WordOf(Get(s.at, AllocWords), sp, w) + Get(s.at, Fold(t))))
            && Shifted(s.at, s1.at, Fold(t), AllocWords, Get(s.at, Fold(t)))
  {
    s1 := Apply(c, s, Merge(t));
    GetMove(s.at, Fold(t), AllocWords, Get(s.at, Fold(t)));
    One(c, s, Merge(t));
  }

  lemma ShiftedOn<P(!new), E>(m: Layout<P, E>, m1: Layout<P, E>, m2: Layout<P, E>, p: P, q: P, r: P, x: set<E>)
    requires p != q && q != r && p != r && Get(m, q) == {} && Shifted(m, m1, p, q, x) && Shifted(m1, m2, q, r, Get(m1, q))
    ensures Get(m1, q) == x && Shifted(m, m2, p, r, x)
  {
  }

  /** A fold moves what is deposited in the word into the private bitmap, and goes on with all that is free in it. */
  lemma FoldWord(c: Config, s: State, t: Tid) returns (s2: State)
    requires ConfigOk(c) && PcOf(s, t).Scan? && ValidCell(c, PcOf(s, t).k) && Get(s.at, Fold(t)) == {}
    ensures var Scan(k, sp, w, job) := PcOf(s, t);
            var free := WordOf(Get(s.at, FreeWords), sp, w);
            && Does(c, s, FoldActs(s, t, sp, w), s2) && s2 == s.(pc := s2.pc, at := s2.at)
            && Moved(s, s2, t, Folded(c, k, sp, w, job, WordOf(Get(s.at, AllocWords), sp, w) + free))
            && Shifted(s.at, s2.at, FreeWords, AllocWords, free)
  {
    hide Does, Folded, WordOf;
    var Scan(k, sp, w, job) := PcOf(s, t);
    var free := WordOf(Get(s.at, FreeWords), sp, w);
    var s1, a := Peek(c, s, t);
    if free == {} {
      s2 := s1;
      assert WordOf(Get(s.at, AllocWords), sp, w) + free == WordOf(Get(s.at, AllocWords), sp, w);
      assert forall p :: Get(s.at, p) + free == Get(s.at, p) == Get(s.at, p) - free;
    } else {
      var s3 := SwappedOut(c, s1, t);
      s2 := MergedIn(c, s3, t);
      ShiftedOn(s.at, s3.at, s2.at, FreeWords, Fold(t), AllocWords, free);
      AllocSame(s.at, s3.at, t, free);
      Then(c, s, [a], s1, [Swap(t)], s3);
      Then(c, s, [a] + [Swap(t)], s3, [Merge(t)], s2);
      assert [a] + [Swap(t)] + [Merge(t)] == [a, Swap(t), Merge(t)];
    }
  }

  lemma AllocSame(m: Layout<Place, Obj>, m1: Layout<Place, Obj>, t: Tid, x: set<Obj>)
    requires Shifted(m, m1, FreeWords, Fold(t), x)
    ensures Get(m1, AllocWords) == Get(m, AllocWords)
  {
  }

  lemma Began(c: Config, s: State, t: Tid, a: Action, sp: nat, w: nat, job: Job) returns (s1: State)
    requires ConfigOk(c) && PcOf(s, t).Holding? && Enabled(c, s, a)
    requires (a == BeginScan(t, sp, w) && job == Take) || (a == BeginHint(t, w) && sp == HintOf(s, PcOf(s, t).k) && job == Take)
             || (a == BeginCheck(t, sp) && w == 0 && job == Count(0))
    ensures Does(c, s, [a], s1) && s1 == s.(pc := s1.pc) && Moved(s, s1, t, Scan(PcOf(s, t).k, sp, w, job))
  {
    s1 := Apply(c, s, a);
    One(c, s, a);
  }

  lemma BitsTaken(c: Config, s: State, t: Tid, x: set<Obj>) returns (s1: State)
    requires ConfigOk(c) && PcOf(s, t).Have? && x <= PcOf(s, t).word
    ensures Does(c, s, [TakeBits(t, x)], s1) && s1 == s.(pc := s1.pc, at := s1.at) && Moved(s, s1, t, Holding(PcOf(s, t).k))
    ensures Shifted(s.at, s1.at, AllocWords, Out(t), x)
  {
    s1 := Apply(c, s, TakeBits(t, x));
    GetMove(s.at, AllocWords, Out(t), x);
    One(c, s, TakeBits(t, x));
  }

  /** What a take of the slots `x`, with `free` deposited in their word before, gets done. */
  ghost predicate TakenBy(s: State, s2: State, t: Tid, free: set<Obj>, x: set<Obj>) {
    && s2 == s.(pc := s2.pc, at := s2.at) && Moved(s, s2, t, Idle)
    && forall p :: Get(s2.at, p) == if p == Out(t) then Get(s.at, p) + x else if p == AllocWords then Get(s.at, p) + free - x
                                    else if p == FreeWords then Get(s.at, p) - free else Get(s.at, p)
  }

  /** A scan of a word, by way of the list or of the hint, hands out any of its free slots: into the thread's hands, and
      nothing else moves but the word's deposits into the private bitmap. */
  lemma TakeWorks(c: Config, s: State, t: Tid, k: Cell, hinted: bool, sp: nat, w: nat, x: set<Obj>) returns (s2: State)
    requires ConfigOk(c) && Inv(c, s) && PcOf(s, t) == Idle && ValidCell(c, k) && Unlocked(s, k)
    requires if hinted then sp == HintOf(s, k) && HintHomeOk(c, s, k, sp) else sp in s.small && s.small[sp] == k
    requires x <= WordOf(Get(s.at, AllocWords), sp, w) + WordOf(Get(s.at, FreeWords), sp, w)
    ensures Does(c, s, [Lock(t, k), if hinted then BeginHint(t, w) else BeginScan(t, sp, w)] + FoldActs(s, t, sp, w) + [TakeBits(t, x), Unlock(t)], s2)
    ensures TakenBy(s, s2, t, WordOf(Get(s.at, FreeWords), sp, w), x)
  {
    hide Does, Inv, WordOf, HintHomeOk, Get;
    NoFold(c, s, t);
    var s1, acts := ToScan(c, s, t, k, hinted, sp, w);
    var s4 := FoldWord(c, s1, t);
    var s5, ends := ToIdle(c, s4, t, x);
    s2 := s5;
    Then(c, s, acts, s1, FoldActs(s, t, sp, w), s4);
    Then(c, s, acts + FoldActs(s, t, sp, w), s4, ends, s2);
    assert forall p :: p != Out(t) && p != AllocWords ==> Get(s5.at, p) == Get(s4.at, p);
  }

  lemma ToScan(c: Config, s: State, t: Tid, k: Cell, hinted: bool, sp: nat, w: nat) returns (s2: State, acts: seq<Action>)
    requires ConfigOk(c) && PcOf(s, t) == Idle && ValidCell(c, k) && Unlocked(s, k)
    requires if hinted then sp == HintOf(s, k) && HintHomeOk(c, s, k, sp) else sp in s.small && s.small[sp] == k
    ensures acts == [Lock(t, k), if hinted then BeginHint(t, w) else BeginScan(t, sp, w)]
    ensures Does(c, s, acts, s2) && s2 == s.(pc := s2.pc) && Moved(s, s2, t, Scan(k, sp, w, Take))
  {
    hide Does;
    var a := if hinted then BeginHint(t, w) else BeginScan(t, sp, w);
    var s1 := Locked(c, s, t, k);
    CanBegin(c, s, s1, t, k, hinted, sp, w);
    s2 := Began(c, s1, t, a, sp, w, Take);
    Then(c, s, [Lock(t, k)], s1, [a], s2);
    acts := [Lock(t, k)] + [a];
  }

  lemma ToIdle(c: Config, s: State, t: Tid, x: set<Obj>) returns (s2: State, acts: seq<Action>)
    requires ConfigOk(c) && PcOf(s, t).Have? && x <= PcOf(s, t).word
    ensures acts == [TakeBits(t, x), Unlock(t)] && Does(c, s, acts, s2) && s2 == s.(pc := s2.pc, at := s2.at) && Moved(s, s2, t, Idle)
    ensures Shifted(s.at, s2.at, AllocWords, Out(t), x)
  {
    hide Does;
    var s1 := BitsTaken(c, s, t, x);
    s2 := Released(c, s1, t);
    Then(c, s, [TakeBits(t, x)], s1, [Unlock(t)], s2);
    acts := [TakeBits(t, x)] + [Unlock(t)];
  }

  lemma NoFold(c: Config, s: State, t: Tid)
    requires ConfigOk(c) && Inv(c, s) && !PcOf(s, t).Swapped?
    ensures Get(s.at, Fold(t)) == {}
  {
    assert PcOk(c, s, t);
  }

  lemma CanBegin(c: Config, s: State, s1: State, t: Tid, k: Cell, hinted: bool, sp: nat, w: nat)
    requires ConfigOk(c) && s1 == s.(pc := s1.pc) && PcOf(s1, t) == Holding(k)
    requires if hinted then sp == HintOf(s, k) && HintHomeOk(c, s, k, sp) else sp in s.small && s.small[sp] == k
    ensures Enabled(c, s1, if hinted then BeginHint(t, w) else BeginScan(t, sp, w))
  {
  }

  /** A hint stored for a cell is followed, wherever it is homed: any of the span's free slots, after folding any of its
      deposits, go into the thread's hands, and nothing else moves. */
  lemma HintFollowed(c: Config, s: State, t: Tid, k: Cell, h: nat, f: set<Obj>, x: set<Obj>) returns (s2: State)
    requires ConfigOk(c) && Inv(c, s) && PcOf(s, t) == Idle && ValidCell(c, k) && Unlocked(s, k) && HintClassOk(s, k, h)
    requires h in s.small && s.small[h] != k ==> Unlocked(s, s.small[h])
    requires f <= OfSpan(Get(s.at, FreeWords), h) && x <= OfSpan(Get(s.at, AllocWords), h) + f
    ensures Does(c, s, [SetHint(k, h), Lock(t, k), ForeignTake(t, f, x), Unlock(t)], s2)
    ensures TakenBy(s.(hint := s.hint[k := h]), s2, t, f, x)
  {
    hide Does, Inv, OfSpan;
    var s1 := HintStored(c, s, k, h);
    assert forall u :: PcOf(s1, u) == PcOf(s, u);
    var s3 := Locked(c, s1, t, k);
    var s4 := TakenForeign(c, s3, t, k, h, f, x);
    s2 := Released(c, s4, t);
    Then(c, s, [SetHint(k, h)], s1, [Lock(t, k)], s3);
    Then(c, s, [SetHint(k, h)] + [Lock(t, k)], s3, [ForeignTake(t, f, x)], s4);
    Then(c, s, [SetHint(k, h)] + [Lock(t, k)] + [ForeignTake(t, f, x)], s4, [Unlock(t)], s2);
    assert [SetHint(k, h)] + [Lock(t, k)] + [ForeignTake(t, f, x)] + [Unlock(t)] == [SetHint(k, h), Lock(t, k), ForeignTake(t, f, x), Unlock(t)];
  }

  lemma HintStored(c: Config, s: State, k: Cell, h: nat) returns (s1: State)
    requires ConfigOk(c)
    ensures Does(c, s, [SetHint(k, h)], s1) && s1 == s.(hint := s.hint[k := h])
  {
    s1 := Apply(c, s, SetHint(k, h));
    One(c, s, SetHint(k, h));
  }

  lemma TakenForeign(c: Config, s: State, t: Tid, k: Cell, h: nat, f: set<Obj>, x: set<Obj>) returns (s1: State)
    requires ConfigOk(c) && PcOf(s, t) == Holding(k) && HintOf(s, k) == h && HintClassOk(s, k, h)
    requires h in s.small && s.small[h] != k ==> Unlocked(s, s.small[h])
    requires f <= OfSpan(Get(s.at, FreeWords), h) && x <= OfSpan(Get(s.at, AllocWords), h) + f
    ensures Does(c, s, [ForeignTake(t, f, x)], s1) && s1 == s.(at := s1.at)
    ensures forall p :: Get(s1.at, p) == if p == Out(t) then Get(s.at, p) + x else if p == AllocWords then Get(s.at, p) + f - x
                                         else if p == FreeWords then Get(s.at, p) - f else Get(s.at, p)
  {
    s1 := Apply(c, s, ForeignTake(t, f, x));
    var m := Move(s.at, FreeWords, AllocWords, f);
    GetMove(s.at, FreeWords, AllocWords, f);
    GetMove(m, AllocWords, Out(t), x);
    One(c, s, ForeignTake(t, f, x));
  }

  /** A freed slot is in its deposited word after the deposit, with the other slots of that word that were pending;
      nothing else moves. */
  lemma FreeWorks(c: Config, s: State, t: Tid, p: Place, o: Obj) returns (s2: State)
    requires ConfigOk(c) && Inv(c, s) && Private(p) && p != Mask(t) && o in Get(s.at, p)
    ensures Does(c, s, [Hand(p, Mask(t), {o}), Deposit(t, o.span, o.slot / 64)], s2) && s2 == s.(at := s2.at)
    ensures var x := WordOf(Get(s.at, Mask(t)), o.span, o.slot / 64) + {o};
            forall q :: Get(s2.at, q) == if q == FreeWords then Get(s.at, q) + x else if q == p then Get(s.at, q) - {o}
                                         else if q == Mask(t) then Get(s.at, q) - x else Get(s.at, q)
  {
    hide Inv, Does;
    var a, w := Hand(p, Mask(t), {o}), o.slot / 64;
    var s1 := Handed(c, s, p, Mask(t), {o});
    assert WordOf(Get(s1.at, Mask(t)), o.span, w) == WordOf(Get(s.at, Mask(t)), o.span, w) + {o};
    s2 := Deposited(c, s1, t, o.span, w);
    Then(c, s, [a], s1, [Deposit(t, o.span, w)], s2);
    assert [a] + [Deposit(t, o.span, w)] == [a, Deposit(t, o.span, w)];
    NotPending(c, s, t, p, o);
  }

  lemma Handed(c: Config, s: State, p: Place, q: Place, x: set<Obj>) returns (s1: State)
    requires ConfigOk(c) && Private(p) && Private(q) && p != q && x <= Get(s.at, p)
    ensures Does(c, s, [Hand(p, q, x)], s1) && s1 == s.(at := s1.at) && Shifted(s.at, s1.at, p, q, x)
  {
    s1 := Apply(c, s, Hand(p, q, x));
    GetMove(s.at, p, q, x);
    One(c, s, Hand(p, q, x));
  }

  lemma Deposited(c: Config, s: State, t: Tid, sp: nat, w: nat) returns (s1: State)
    requires ConfigOk(c)
    ensures Does(c, s, [Deposit(t, sp, w)], s1) && s1 == s.(at := s1.at)
    ensures Shifted(s.at, s1.at, Mask(t), FreeWords, WordOf(Get(s.at, Mask(t)), sp, w))
  {
    s1 := Apply(c, s, Deposit(t, sp, w));
    GetMove(s.at, Mask(t), FreeWords, WordOf(Get(s.at, Mask(t)), sp, w));
    One(c, s, Deposit(t, sp, w));
  }

  lemma NotPending(c: Config, s: State, t: Tid, p: Place, o: Obj)
    requires ConfigOk(c) && Inv(c, s) && p != Mask(t) && o in Get(s.at, p)
    ensures o !in Get(s.at, Mask(t))
  {
  }

  // --- a sweep --------------------------------------------------------------------------------------

  /** The steps of thread `t` between the start of a check and the end of a retirement. */
  predicate SweepStep(a: Action, t: Tid) {
    a in {PeekZero(t), PeekNonZero(t), Swap(t), Merge(t), ReadZero(t), Unlink(t), Retag(t), ResetBits(t)}
  }

  /** The slots of span `sp` from `lo` up to `hi`. */
  function SlotsFrom(sp: nat, lo: nat, hi: nat): (r: set<Obj>)
    ensures forall o :: o in r <==> o.span == sp && lo <= o.slot < hi
  {
    set j: nat | lo <= j < hi :: Obj(sp, j)
  }

  lemma {:induction false} SlotsCount(sp: nat, lo: nat, hi: nat)
    requires lo <= hi
    ensures |SlotsFrom(sp, lo, hi)| == hi - lo
    decreases hi - lo
  {
    if lo < hi {
      SlotsCount(sp, lo, hi - 1);
      assert SlotsFrom(sp, lo, hi) == SlotsFrom(sp, lo, hi - 1) + {Obj(sp, hi - 1)};
    }
  }

  /** All the slots of the span are free, deposited or not. */
  ghost predicate AllFree(c: Config, s: State, k: Cell, sp: nat)
    requires ConfigOk(c) && ValidCell(c, k)
  {
    sp in s.small && s.small[sp] == k && Tiles(c, k, sp) <= Get(s.at, FreeWords) + Get(s.at, AllocWords)
  }

  /** Only the slots `x` have moved. */
  ghost predicate OnlyMoved(m: Layout<Place, Obj>, m2: Layout<Place, Obj>, x: set<Obj>) {
    forall p :: Get(m2, p) - x == Get(m, p) - x
  }

  /** The word of a span all of whose slots are free. */
  lemma FreeWord(c: Config, s: State, k: Cell, sp: nat, w: nat)
    requires ConfigOk(c) && Inv(c, s) && ValidCell(c, k) && AllFree(c, s, k, sp) && 64 * w < Slots(c, k)
    ensures var hi := if 64 * (w + 1) < Slots(c, k) then 64 * (w + 1) else Slots(c, k);
            var word := WordOf(Get(s.at, AllocWords), sp, w) + WordOf(Get(s.at, FreeWords), sp, w);
            word == SlotsFrom(sp, 64 * w, hi) && |word| == hi - 64 * w
  {
    var hi := if 64 * (w + 1) < Slots(c, k) then 64 * (w + 1) else Slots(c, k);
    var word := WordOf(Get(s.at, AllocWords), sp, w) + WordOf(Get(s.at, FreeWords), sp, w);
    forall o ensures o in word <==> o in SlotsFrom(sp, 64 * w, hi) {
      if o in word {
        assert Somewhere(s.at, o);
        assert Tiled(c, s.small, o);
      }
      if o in SlotsFrom(sp, 64 * w, hi) { assert o in Tiles(c, k, sp); }
    }
    SlotsCount(sp, 64 * w, hi);
  }

  lemma FoldKeeps(c: Config, s: State, s2: State, k: Cell, sp: nat, w: nat)
    requires ConfigOk(c) && Inv(c, s) && ValidCell(c, k) && AllFree(c, s, k, sp) && s2 == s.(pc := s2.pc, at := s2.at)
    requires Shifted(s.at, s2.at, FreeWords, AllocWords, WordOf(Get(s.at, FreeWords), sp, w))
    ensures AllFree(c, s2, k, sp) && OnlyMoved(s.at, s2.at, Tiles(c, k, sp))
  {
    forall o | o in WordOf(Get(s.at, FreeWords), sp, w) ensures o in Tiles(c, k, sp) {
      assert Somewhere(s.at, o);
      assert Tiled(c, s.small, o);
    }
  }

  lemma StillInv(c: Config, s: State, acts: seq<Action>, s2: State)
    requires ConfigOk(c) && Inv(c, s) && Does(c, s, acts, s2)
    ensures Inv(c, s2)
  {
    RunKeepsInv(c, s, acts);
  }

  /** The count, word by word: it finds all the slots. */
  lemma {:induction false} CountWords(c: Config, s: State, t: Tid, k: Cell, sp: nat, w: nat) returns (s2: State, acts: seq<Action>)
    requires ConfigOk(c) && Inv(c, s) && ValidCell(c, k) && AllFree(c, s, k, sp) && 64 * w < Slots(c, k)
    requires PcOf(s, t) == Scan(k, sp, w, Count(64 * w))
    ensures Does(c, s, acts, s2) && (forall a | a in acts :: SweepStep(a, t)) && s2 == s.(pc := s2.pc, at := s2.at)
    ensures Moved(s, s2, t, Reread(k, sp, 0)) && OnlyMoved(s.at, s2.at, Tiles(c, k, sp)) && AllFree(c, s2, k, sp)
    decreases Slots(c, k) - 64 * w
  {
    hide Does, Inv, WordOf, AllFree, OnlyMoved, Slots, Tiles;
    NoFold(c, s, t);
    FreeWord(c, s, k, sp, w);
    s2 := FoldWord(c, s, t);
    acts := FoldActs(s, t, sp, w);
    FoldKeeps(c, s, s2, k, sp, w);
    if 64 * (w + 1) < Slots(c, k) {
      StillInv(c, s, acts, s2);
      var s1, first := s2, acts;
      var rest;
      s2, rest := CountWords(c, s1, t, k, sp, w + 1);
      Then(c, s, first, s1, rest, s2);
      acts := first + rest;
      MovedOn(s.at, s1.at, s2.at, Tiles(c, k, sp));
    }
  }

  lemma MovedOn(m: Layout<Place, Obj>, m1: Layout<Place, Obj>, m2: Layout<Place, Obj>, x: set<Obj>)
    requires OnlyMoved(m, m1, x) && OnlyMoved(m1, m2, x)
    ensures OnlyMoved(m, m2, x)
  {
  }

  /** The second look, word by word: nothing is deposited. */
  lemma {:induction false} LookAgain(c: Config, s: State, t: Tid, k: Cell, sp: nat, w: nat) returns (s2: State, acts: seq<Action>)
    requires ConfigOk(c) && Inv(c, s) && ValidCell(c, k) && PcOf(s, t) == Reread(k, sp, w)
    ensures Does(c, s, acts, s2) && (forall a | a in acts :: SweepStep(a, t)) && s2 == s.(pc := s2.pc) && Moved(s, s2, t, Emptied(k, sp))
    decreases if 64 * w < Slots(c, k) then Slots(c, k) - 64 * w else 0
  {
    hide Does, Inv, WordOf, Slots;
    s2 := ReadOne(c, s, t, k, sp, w);
    acts := [ReadZero(t)];
    if 64 * (w + 1) < Slots(c, k) {
      StillInv(c, s, acts, s2);
      var s1 := s2;
      var rest;
      s2, rest := LookAgain(c, s1, t, k, sp, w + 1);
      Then(c, s, acts, s1, rest, s2);
      acts := acts + rest;
    }
  }

  lemma ReadOne(c: Config, s: State, t: Tid, k: Cell, sp: nat, w: nat) returns (s2: State)
    requires ConfigOk(c) && Inv(c, s) && ValidCell(c, k) && PcOf(s, t) == Reread(k, sp, w)
    ensures Does(c, s, [ReadZero(t)], s2) && s2 == s.(pc := s2.pc)
    ensures Moved(s, s2, t, if 64 * (w + 1) < Slots(c, k) then Reread(k, sp, w + 1) else Emptied(k, sp))
  {
    NoneDeposited(c, s, t, k, sp, w);
    s2 := Apply(c, s, ReadZero(t));
    One(c, s, ReadZero(t));
  }

  lemma NoneDeposited(c: Config, s: State, t: Tid, k: Cell, sp: nat, w: nat)
    requires ConfigOk(c) && Inv(c, s) && ValidCell(c, k) && PcOf(s, t) == Reread(k, sp, w)
    ensures WordOf(Get(s.at, FreeWords), sp, w) == {}
  {
    assert PcOk(c, s, t);
    forall o | o in WordOf(Get(s.at, FreeWords), sp, w) ensures false {
      assert Somewhere(s.at, o);
    }
  }

  lemma Unlisted(c: Config, s: State, t: Tid, k: Cell, sp: nat) returns (s1: State)
    requires ConfigOk(c) && PcOf(s, t) == Emptied(k, sp)
    ensures Does(c, s, [Unlink(t)], s1) && s1 == s.(pc := s1.pc, hint := s1.hint) && Moved(s, s1, t, Unlinked(k, sp, 0))
    ensures HintOf(s1, k) != sp || sp == NO_SPAN
    ensures forall j :: HintOf(s1, j) == if j == k && HintOf(s, k) == sp then NO_SPAN else HintOf(s, j)
  {
    s1 := Apply(c, s, Unlink(t));
    One(c, s, Unlink(t));
  }

  lemma RetagOne(c: Config, s: State, t: Tid, k: Cell, sp: nat, i: nat) returns (s1: State)
    requires ConfigOk(c) && ValidCell(c, k) && PcOf(s, t) == Unlinked(k, sp, i) && i < Group(c, k) && sp + i < |s.table|
    ensures Does(c, s, [Retag(t)], s1) && s1 == s.(pc := s1.pc, table := s.table[sp + i := LARGE]) && Moved(s, s1, t, Unlinked(k, sp, i + 1))
  {
    s1 := Apply(c, s, Retag(t));
    One(c, s, Retag(t));
  }

  lemma {:induction false} RetagAll(c: Config, s: State, t: Tid, k: Cell, sp: nat, i: nat) returns (s2: State, acts: seq<Action>)
    requires ConfigOk(c) && ValidCell(c, k) && PcOf(s, t) == Unlinked(k, sp, i) && i <= Group(c, k) && sp + Group(c, k) <= |s.table|
    ensures Does(c, s, acts, s2) && (forall a | a in acts :: SweepStep(a, t)) && s2 == s.(pc := s2.pc, table := s2.table)
    ensures Moved(s, s2, t, Unlinked(k, sp, Group(c, k))) && |s2.table| == |s.table|
    ensures forall j | 0 <= j < |s.table| :: s2.table[j] == if sp + i <= j < sp + Group(c, k) then LARGE else s.table[j]
    decreases Group(c, k) - i
  {
    hide Does, Group;
    if i == Group(c, k) {
      s2, acts := s, [];
      assert Does(c, s, [], s) by { Nothing(c, s); }
    } else {
      var s1 := RetagOne(c, s, t, k, sp, i);
      var rest;
      s2, rest := RetagAll(c, s1, t, k, sp, i + 1);
      Then(c, s, [Retag(t)], s1, rest, s2);
      acts := [Retag(t)] + rest;
    }
  }

  lemma Nothing(c: Config, s: State)
    requires ConfigOk(c)
    ensures Does(c, s, [], s)
  {
  }

  lemma Forgotten(c: Config, s: State, t: Tid, k: Cell, sp: nat) returns (s1: State)
    requires ConfigOk(c) && ValidCell(c, k) && PcOf(s, t) == Unlinked(k, sp, Group(c, k))
    ensures Does(c, s, [ResetBits(t)], s1) && s1 == s.(pc := s1.pc, at := s1.at, small := s.small - {sp}, spans := s1.spans)
    ensures Moved(s, s1, t, Holding(k)) && Shifted(s.spans, s1.spans, SmallGroup(sp), Transit(t), Range(sp, Group(c, k)))
    ensures forall p :: Get(s1.at, p) == if p == AllocWords || p == FreeWords then Get(s.at, p) - Tiles(c, k, sp) else Get(s.at, p)
  {
    hide Slots, Group;
    s1 := Apply(c, s, ResetBits(t));
    GetMove(s.spans, SmallGroup(sp), Transit(t), Range(sp, Group(c, k)));
    One(c, s, ResetBits(t));
  }

  lemma Checking(c: Config, s: State, t: Tid, k: Cell, sp: nat) returns (s2: State)
    requires ConfigOk(c) && Inv(c, s) && PcOf(s, t) == Idle && ValidCell(c, k) && Unlocked(s, k) && sp in s.small && s.small[sp] == k
    ensures Does(c, s, [Lock(t, k), BeginCheck(t, sp)], s2) && s2 == s.(pc := s2.pc) && Moved(s, s2, t, Scan(k, sp, 0, Count(0))) && Inv(c, s2)
  {
    hide Does, Inv;
    var s1 := Locked(c, s, t, k);
    s2 := Began(c, s1, t, BeginCheck(t, sp), sp, 0, Count(0));
    Then(c, s, [Lock(t, k)], s1, [BeginCheck(t, sp)], s2);
    assert [Lock(t, k)] + [BeginCheck(t, sp)] == [Lock(t, k), BeginCheck(t, sp)];
    StillInv(c, s, [Lock(t, k), BeginCheck(t, sp)], s2);
  }

  /** From the start of the check to the lock alone: the span is off the list and in the thread's hands. */
  lemma CheckAndRetire(c: Config, s: State, t: Tid, k: Cell, sp: nat) returns (s2: State, acts: seq<Action>)
    requires ConfigOk(c) && Inv(c, s) && ValidCell(c, k) && AllFree(c, s, k, sp) && PcOf(s, t) == Scan(k, sp, 0, Count(0))
    ensures Does(c, s, acts, s2) && (forall a | a in acts :: SweepStep(a, t)) && Moved(s, s2, t, Holding(k))
    ensures Retired(c, s, s2, k, sp) && Shifted(s.spans, s2.spans, SmallGroup(sp), Transit(t), Range(sp, Group(c, k)))
  {
    hide Does, Inv, AllFree, OnlyMoved, Shifted, Tiles, Slots, Group, SweepStep;
    GroupOf(c, s, k, sp);
    var s1, xs := CountWords(c, s, t, k, sp, 0);
    StillInv(c, s, xs, s1);
    var s3, ys := LookAgain(c, s1, t, k, sp, 0);
    var s4 := Unlisted(c, s3, t, k, sp);
    var s5, zs := RetagAll(c, s4, t, k, sp, 0);
    s2 := Forgotten(c, s5, t, k, sp);
    AllGone(c, s, s1, s2, k, sp);
    RetiredNow(c, s, s4, s2, k, sp);
    Then(c, s, xs, s1, ys, s3);
    Then(c, s, xs + ys, s3, [Unlink(t)], s4);
    Then(c, s, xs + ys + [Unlink(t)], s4, zs, s5);
    Then(c, s, xs + ys + [Unlink(t)] + zs, s5, [ResetBits(t)], s2);
    acts := xs + ys + [Unlink(t)] + zs + [ResetBits(t)];
    SweepSteps(t);
  }

  lemma SweepSteps(t: Tid)
    ensures SweepStep(Unlink(t), t) && SweepStep(ResetBits(t), t)
  {
  }

  lemma GroupOf(c: Config, s: State, k: Cell, sp: nat)
    requires ConfigOk(c) && Inv(c, s) && ValidCell(c, k) && AllFree(c, s, k, sp)
    ensures sp in s.small && sp + Group(c, k) <= |s.table| && Slots(c, k) > 0 && sp < NO_SPAN
  {
    GroupWithin(c, s, sp);
  }

  /** What a retirement of span `sp` gets done, but for the spans. */
  ghost predicate Retired(c: Config, s: State, s2: State, k: Cell, sp: nat)
    requires ConfigOk(c) && ValidCell(c, k)
  {
    && s2.small == s.small - {sp} && (forall p :: Get(s2.at, p) == Get(s.at, p) - Tiles(c, k, sp))
    && |s2.table| == |s.table| && (forall j | 0 <= j < |s.table| :: s2.table[j] == if sp <= j < sp + Group(c, k) then LARGE else s.table[j])
    && (forall j :: HintOf(s2, j) == if j == k && HintOf(s, k) == sp then NO_SPAN else HintOf(s, j))
    && s2.large == s.large && s2.runSpans == s.runSpans && s2.cursor == s.cursor
  }

  lemma RetiredNow(c: Config, s: State, s4: State, s2: State, k: Cell, sp: nat)
    requires ConfigOk(c) && ValidCell(c, k) && s2.small == s.small - {sp} && forall p :: Get(s2.at, p) == Get(s.at, p) - Tiles(c, k, sp)
    requires |s2.table| == |s.table| && forall j | 0 <= j < |s.table| :: s2.table[j] == if sp <= j < sp + Group(c, k) then LARGE else s.table[j]
    requires s2.hint == s4.hint && forall j :: HintOf(s4, j) == if j == k && HintOf(s, k) == sp then NO_SPAN else HintOf(s, j)
    requires s2.large == s.large && s2.runSpans == s.runSpans && s2.cursor == s.cursor
    ensures Retired(c, s, s2, k, sp)
  {
    assert forall j :: HintOf(s2, j) == HintOf(s4, j);
  }

  /** Once the two bitmaps of a span all of whose slots were free are cleared, none of its slots is anywhere. */
  lemma AllGone(c: Config, s: State, s1: State, s2: State, k: Cell, sp: nat)
    requires ConfigOk(c) && Inv(c, s) && ValidCell(c, k) && AllFree(c, s, k, sp) && OnlyMoved(s.at, s1.at, Tiles(c, k, sp))
    requires Inv(c, s1) && AllFree(c, s1, k, sp)
    requires forall p :: Get(s2.at, p) == if p == AllocWords || p == FreeWords then Get(s1.at, p) - Tiles(c, k, sp) else Get(s1.at, p)
    ensures forall p :: Get(s2.at, p) == Get(s.at, p) - Tiles(c, k, sp)
  {
    forall p ensures Get(s2.at, p) == Get(s.at, p) - Tiles(c, k, sp) {
      if p != AllocWords && p != FreeWords {
        assert Get(s1.at, p) - Tiles(c, k, sp) == Get(s1.at, p);
      }
    }
  }

  /** A sweep of a span all of whose slots are free reclaims it: it leaves the list, its slots and its tags go, and the
      pool gains exactly its group. */
  lemma SweepReclaims(c: Config, s: State, t: Tid, k: Cell, sp: nat) returns (s2: State, acts: seq<Action>)
    requires ConfigOk(c) && Inv(c, s) && PcOf(s, t) == Idle && ValidCell(c, k) && Unlocked(s, k) && AllFree(c, s, k, sp)
    ensures (forall a | a in acts :: SweepStep(a, t))
    ensures Does(c, s, [Lock(t, k), BeginCheck(t, sp)] + acts + [Unlock(t), FileRun(t, sp, Group(c, k))], s2)
    ensures Retired(c, s, s2, k, sp) && Shifted(s.spans, s2.spans, SmallGroup(sp), Pool, Range(sp, Group(c, k))) && Moved(s, s2, t, Idle)
  {
    hide Does, Inv, AllFree, Shifted, Tiles, Slots, Group, SweepStep, Retired;
    GroupOf(c, s, k, sp);
    var s1 := CheckingFree(c, s, t, k, sp);
    var s3;
    s3, acts := CheckAndRetire(c, s1, t, k, sp);
    var s4 := Released(c, s3, t);
    s2 := Filed(c, s, s4, t, k, sp);
    RetiredSame(c, s, s1, s3, s2, k, sp);
    var pre := [Lock(t, k), BeginCheck(t, sp)];
    Then(c, s, pre, s1, acts, s3);
    Then(c, s, pre + acts, s3, [Unlock(t)], s4);
    Then(c, s, pre + acts + [Unlock(t)], s4, [FileRun(t, sp, Group(c, k))], s2);
    assert pre + acts + [Unlock(t)] + [FileRun(t, sp, Group(c, k))] == pre + acts + [Unlock(t), FileRun(t, sp, Group(c, k))];
  }

  lemma CheckingFree(c: Config, s: State, t: Tid, k: Cell, sp: nat) returns (s2: State)
    requires ConfigOk(c) && Inv(c, s) && PcOf(s, t) == Idle && ValidCell(c, k) && Unlocked(s, k) && AllFree(c, s, k, sp)
    ensures Does(c, s, [Lock(t, k), BeginCheck(t, sp)], s2) && s2 == s.(pc := s2.pc) && Moved(s, s2, t, Scan(k, sp, 0, Count(0))) && Inv(c, s2)
    ensures AllFree(c, s2, k, sp)
  {
    hide Does, Inv;
    s2 := Checking(c, s, t, k, sp);
  }

  lemma Filed(c: Config, s: State, s1: State, t: Tid, k: Cell, sp: nat) returns (s2: State)
    requires ConfigOk(c) && Inv(c, s) && ValidCell(c, k) && AllFree(c, s, k, sp) && PcOf(s1, t) == Idle
    requires Shifted(s.spans, s1.spans, SmallGroup(sp), Transit(t), Range(sp, Group(c, k)))
    ensures Does(c, s1, [FileRun(t, sp, Group(c, k))], s2) && s2 == s1.(spans := s2.spans)
    ensures Shifted(s.spans, s2.spans, SmallGroup(sp), Pool, Range(sp, Group(c, k)))
  {
    hide Does, Group, Tiles;
    assert SmallGroupOk(c, s.spans, s.small, sp);
    s2 := RunFiled(c, s1, t, sp, Group(c, k));
    TransitApart(c, s, t, SmallGroup(sp), Range(sp, Group(c, k)));
  }

  lemma RetiredSame(c: Config, s: State, s1: State, s3: State, s2: State, k: Cell, sp: nat)
    requires ConfigOk(c) && ValidCell(c, k) && s1 == s.(pc := s1.pc) && Retired(c, s1, s3, k, sp) && s2 == s3.(pc := s2.pc, spans := s2.spans)
    ensures Retired(c, s, s2, k, sp)
  {
    assert forall j :: HintOf(s1, j) == HintOf(s, j) && HintOf(s2, j) == HintOf(s3, j);
  }

  // --- a carve --------------------------------------------------------------------------------------

  lemma ClaimSmall(c: Config, s: State, t: Tid, k: Cell, a: Action, p: Owner, h: nat, n: nat) returns (s1: State)
    requires ConfigOk(c) && PcOf(s, t) == Holding(k) && ValidCell(c, k) && FullGroup(c, k, n) && n >= 1 && Range(h, n) <= Get(s.spans, p)
    requires (a == ClaimPool(t, h, n) && p == Pool) || (a == ClaimBump(t, n) && p == Uncarved && h == s.cursor && h + n <= c.numSpans)
    ensures Does(c, s, [a], s1) && Moved(s, s1, t, Claimed(k, h, n, 0)) && Shifted(s.spans, s1.spans, p, Transit(t), Range(h, n))
    ensures s1 == s.(pc := s1.pc, spans := s1.spans, cursor := if a.ClaimBump? then s.cursor + n else s.cursor)
  {
    s1 := Apply(c, s, a);
    GetMove(s.spans, p, Transit(t), Range(h, n));
    One(c, s, a);
  }

  lemma TagOne(c: Config, s: State, t: Tid) returns (s1: State)
    requires ConfigOk(c) && PcOf(s, t).Claimed? && PcOf(s, t).h + PcOf(s, t).i < |s.table|
    ensures var Claimed(k, h, n, i) := PcOf(s, t);
            && Does(c, s, [TagRun(t)], s1) && Moved(s, s1, t, if i + 1 < n then Claimed(k, h, n, i + 1) else Tagged(k, h, n, 0))
            && s1 == s.(pc := s1.pc, table := s.table[h + i := Tag(k.cls, k.shard)])
  {
    s1 := Apply(c, s, TagRun(t));
    One(c, s, TagRun(t));
  }

  lemma {:induction false} TagAll(c: Config, s: State, t: Tid) returns (s2: State)
    requires ConfigOk(c) && PcOf(s, t).Claimed? && PcOf(s, t).i < PcOf(s, t).n && PcOf(s, t).h + PcOf(s, t).n <= |s.table|
    ensures var Claimed(k, h, n, i) := PcOf(s, t);
            && Does(c, s, seq(n - i, _ => TagRun(t)), s2) && Moved(s, s2, t, Tagged(k, h, n, 0))
            && s2 == s.(table := s2.table, pc := s2.pc) && |s2.table| == |s.table|
            && forall j | 0 <= j < |s.table| :: s2.table[j] == if h + i <= j < h + n then Tag(k.cls, k.shard) else s.table[j]
    decreases PcOf(s, t).n - PcOf(s, t).i
  {
    hide Does;
    var Claimed(k, h, n, i) := PcOf(s, t);
    var s1 := TagOne(c, s, t);
    if i + 1 == n {
      s2 := s1;
      assert seq(n - i, _ => TagRun(t)) == [TagRun(t)];
    } else {
      s2 := TagAll(c, s1, t);
      Then(c, s, [TagRun(t)], s1, seq(n - i - 1, _ => TagRun(t)), s2);
      assert [TagRun(t)] + seq(n - i - 1, _ => TagRun(t)) == seq(n - i, _ => TagRun(t));
    }
  }

  /** The heads of a run of `n` spans from `h` on: every span, or the first alone. */
  function HeadsOf(c: Config, k: Cell, h: nat, n: nat): set<nat>
    requires ConfigOk(c) && ValidCell(c, k)
  {
    if Group(c, k) == 1 then Range(h, n) else {h}
  }

  /** Between `s` and `s2` exactly the heads `hs` have been tiled for cell `k`, all their slots free, and the spans `x` of
      their groups have left thread `t`'s hands. */
  ghost predicate TiledNow(c: Config, s: State, s2: State, t: Tid, k: Cell, hs: set<nat>, x: set<nat>)
    requires ConfigOk(c) && ValidCell(c, k)
  {
    && (forall j :: j in s2.small <==> j in s.small || j in hs)
    && (forall j | j in s2.small :: s2.small[j] == if j in hs then k else s.small[j])
    && (forall p | p != AllocWords :: Get(s2.at, p) == Get(s.at, p))
    && (forall o :: o in Get(s2.at, AllocWords) <==> o in Get(s.at, AllocWords) || (o.span in hs && o.slot < Slots(c, k)))
    && (forall p :: Get(s2.spans, p) == if p.SmallGroup? && p.h in hs then Get(s.spans, p) + Range(p.h, Group(c, k))
                                        else if p == Transit(t) then Get(s.spans, p) - x else Get(s.spans, p))
    && s2 == s.(pc := s2.pc, small := s2.small, at := s2.at, spans := s2.spans)
  }

  lemma TileOnce(c: Config, s: State, t: Tid) returns (s1: State)
    requires ConfigOk(c) && PcOf(s, t).Tagged? && PcOf(s, t).i < PcOf(s, t).n && ValidCell(c, PcOf(s, t).k)
    requires Group(c, PcOf(s, t).k) > 1 ==> PcOf(s, t).i == 0 && PcOf(s, t).n == Group(c, PcOf(s, t).k)
    ensures var Tagged(k, h, n, i) := PcOf(s, t);
            && Does(c, s, [Tile(t)], s1) && Moved(s, s1, t, Tagged(k, h, n, if Group(c, k) == 1 then i + 1 else n))
            && s1 == s.(pc := s1.pc, small := s.small[h + i := k], at := Put(s.at, AllocWords, Tiles(c, k, h + i)),
                        spans := Move(s.spans, Transit(t), SmallGroup(h + i), Range(h + i, Group(c, k))))
  {
    hide Slots, Size, Group, Does, Put, Move;
    s1 := Apply(c, s, Tile(t));
    One(c, s, Tile(t));
  }

  lemma TileNow(c: Config, s: State, t: Tid) returns (s1: State)
    requires ConfigOk(c) && PcOf(s, t).Tagged? && PcOf(s, t).i < PcOf(s, t).n && ValidCell(c, PcOf(s, t).k)
    requires Group(c, PcOf(s, t).k) > 1 ==> PcOf(s, t).i == 0 && PcOf(s, t).n == Group(c, PcOf(s, t).k)
    ensures var Tagged(k, h, n, i) := PcOf(s, t);
            && Does(c, s, [Tile(t)], s1) && TiledNow(c, s, s1, t, k, {h + i}, Range(h + i, Group(c, k)))
            && Moved(s, s1, t, Tagged(k, h, n, if Group(c, k) == 1 then i + 1 else n))
  {
    hide Slots, Group, Does, Move;
    var Tagged(k, h, n, i) := PcOf(s, t);
    s1 := TileOnce(c, s, t);
    GetMove(s.spans, Transit(t), SmallGroup(h + i), Range(h + i, Group(c, k)));
  }

  lemma TiledOn(c: Config, s: State, s1: State, s2: State, t: Tid, k: Cell, hs: set<nat>, x: set<nat>, hs2: set<nat>, y: set<nat>)
    requires ConfigOk(c) && ValidCell(c, k) && TiledNow(c, s, s1, t, k, hs, x) && TiledNow(c, s1, s2, t, k, hs2, y) && hs !! hs2
    ensures TiledNow(c, s, s2, t, k, hs + hs2, x + y)
  {
    hide Slots, Group;
    forall p ensures Get(s2.spans, p) == if p.SmallGroup? && p.h in hs + hs2 then Get(s.spans, p) + Range(p.h, Group(c, k))
                                         else if p == Transit(t) then Get(s.spans, p) - (x + y) else Get(s.spans, p) {
    }
  }

  /** The steps that tile what is left of a run. */
  function TileActs(c: Config, k: Cell, t: Tid, n: nat): seq<Action>
    requires ConfigOk(c) && ValidCell(c, k)
  {
    if Group(c, k) == 1 then seq(n, _ => Tile(t)) else [Tile(t)]
  }

  lemma {:induction false} TileAll(c: Config, s: State, t: Tid) returns (s2: State)
    requires ConfigOk(c) && PcOf(s, t).Tagged? && PcOf(s, t).i < PcOf(s, t).n && ValidCell(c, PcOf(s, t).k)
    requires Group(c, PcOf(s, t).k) > 1 ==> PcOf(s, t).i == 0 && PcOf(s, t).n == Group(c, PcOf(s, t).k)
    ensures var Tagged(k, h, n, i) := PcOf(s, t);
            && Does(c, s, TileActs(c, k, t, n - i), s2) && Moved(s, s2, t, Tagged(k, h, n, n))
            && TiledNow(c, s, s2, t, k, HeadsOf(c, k, h + i, n - i), Range(h + i, n - i))
    decreases PcOf(s, t).n - PcOf(s, t).i
  {
    hide Does, TiledNow, Group;
    var Tagged(k, h, n, i) := PcOf(s, t);
    s2 := TileNow(c, s, t);
    if Group(c, k) == 1 {
      assert Range(h + i, 1) == {h + i};
      if i + 1 == n {
        assert seq(n - i, _ => Tile(t)) == [Tile(t)];
      } else {
        var s1 := s2;
        s2 := TileAll(c, s1, t);
        Then(c, s, [Tile(t)], s1, seq(n - i - 1, _ => Tile(t)), s2);
        assert [Tile(t)] + seq(n - i - 1, _ => Tile(t)) == seq(n - i, _ => Tile(t));
        TiledOn(c, s, s1, s2, t, k, {h + i}, {h + i}, Range(h + i + 1, n - i - 1), Range(h + i + 1, n - i - 1));
        assert {h + i} + Range(h + i + 1, n - i - 1) == Range(h + i, n - i);
      }
    }
  }

  lemma CarveEnds(c: Config, s: State, t: Tid) returns (s2: State)
    requires ConfigOk(c) && PcOf(s, t).Tagged? && PcOf(s, t).i >= PcOf(s, t).n
    ensures Does(c, s, [CarveDone(t), Unlock(t)], s2) && s2 == s.(pc := s2.pc) && Moved(s, s2, t, Idle)
  {
    hide Does;
    var s1 := CarveEnd(c, s, t);
    s2 := Released(c, s1, t);
    Then(c, s, [CarveDone(t)], s1, [Unlock(t)], s2);
    assert [CarveDone(t)] + [Unlock(t)] == [CarveDone(t), Unlock(t)];
  }

  lemma CarveEnd(c: Config, s: State, t: Tid) returns (s1: State)
    requires ConfigOk(c) && PcOf(s, t).Tagged? && PcOf(s, t).i >= PcOf(s, t).n
    ensures Does(c, s, [CarveDone(t)], s1) && s1 == s.(pc := s1.pc) && Moved(s, s1, t, Holding(PcOf(s, t).k))
  {
    s1 := Apply(c, s, CarveDone(t));
    One(c, s, CarveDone(t));
  }

  /** What a carve of the spans `x` from `h` on, taken from `p`, gets done. */
  ghost predicate CarvedBy(c: Config, s: State, s2: State, t: Tid, k: Cell, p: Owner, h: nat, n: nat)
    requires ConfigOk(c) && ValidCell(c, k)
  {
    var hs := HeadsOf(c, k, h, n);
    && (forall j :: j in s2.small <==> j in s.small || j in hs)
    && (forall j | j in s2.small :: s2.small[j] == if j in hs then k else s.small[j])
    && (forall q | q != AllocWords :: Get(s2.at, q) == Get(s.at, q))
    && (forall o :: o in Get(s2.at, AllocWords) <==> o in Get(s.at, AllocWords) || (o.span in hs && o.slot < Slots(c, k)))
    && (forall q :: Get(s2.spans, q) == if q.SmallGroup? && q.h in hs then Get(s.spans, q) + Range(q.h, Group(c, k))
                                        else if q == p then Get(s.spans, q) - Range(h, n) else Get(s.spans, q))
    && |s2.table| == |s.table| && (forall j | 0 <= j < |s.table| :: s2.table[j] == if h <= j < h + n then Tag(k.cls, k.shard) else s.table[j])
    && s2.hint == s.hint && s2.large == s.large && s2.runSpans == s.runSpans && Moved(s, s2, t, Idle)
  }

  /** A carve gets its run from the pool or the bump cursor, tags every span of it, and tiles it: each span by itself, or
      the group of one object. All the new slots are free. */
  lemma CarveWorks(c: Config, s: State, t: Tid, k: Cell, a: Action, p: Owner, h: nat, n: nat) returns (s2: State)
    requires ConfigOk(c) && Inv(c, s) && PcOf(s, t) == Idle && ValidCell(c, k) && Unlocked(s, k) && FullGroup(c, k, n)
    requires n >= 1 && Range(h, n) <= Get(s.spans, p)
    requires (a == ClaimPool(t, h, n) && p == Pool) || (a == ClaimBump(t, n) && p == Uncarved && h == s.cursor && h + n <= c.numSpans)
    ensures Does(c, s, [Lock(t, k), a] + seq(n, _ => TagRun(t)) + TileActs(c, k, t, n) + [CarveDone(t), Unlock(t)], s2)
    ensures CarvedBy(c, s, s2, t, k, p, h, n) && s2.cursor == if a.ClaimBump? then s.cursor + n else s.cursor
  {
    hide Does, Inv, TiledNow, Shifted, Group;
    RunWithin(c, s, p, h, n);
    var s0 := Locked(c, s, t, k);
    var s1 := ClaimSmall(c, s0, t, k, a, p, h, n);
    var s3 := TagAll(c, s1, t);
    var s4 := TileAll(c, s3, t);
    s2 := CarveEnds(c, s4, t);
    CarvedNow(c, s, s1, s3, s4, s2, t, k, p, h, n);
    Then(c, s, [Lock(t, k)], s0, [a], s1);
    Then(c, s, [Lock(t, k)] + [a], s1, seq(n, _ => TagRun(t)), s3);
    Then(c, s, [Lock(t, k)] + [a] + seq(n, _ => TagRun(t)), s3, TileActs(c, k, t, n), s4);
    Then(c, s, [Lock(t, k)] + [a] + seq(n, _ => TagRun(t)) + TileActs(c, k, t, n), s4, [CarveDone(t), Unlock(t)], s2);
    assert [Lock(t, k)] + [a] == [Lock(t, k), a];
  }

  lemma CarvedNow(c: Config, s: State, s1: State, s3: State, s4: State, s2: State, t: Tid, k: Cell, p: Owner, h: nat, n: nat)
    requires ConfigOk(c) && Inv(c, s) && ValidCell(c, k) && (p == Pool || p == Uncarved) && Range(h, n) <= Get(s.spans, p)
    requires s1 == s.(pc := s1.pc, spans := s1.spans, cursor := s1.cursor) && Shifted(s.spans, s1.spans, p, Transit(t), Range(h, n))
    requires s3 == s1.(table := s3.table, pc := s3.pc) && |s3.table| == |s.table|
    requires forall j | 0 <= j < |s.table| :: s3.table[j] == if h <= j < h + n then Tag(k.cls, k.shard) else s.table[j]
    requires TiledNow(c, s3, s4, t, k, HeadsOf(c, k, h, n), Range(h, n)) && s2 == s4.(pc := s2.pc)
    requires PcOf(s2, t) == Idle && forall u | u != t :: PcOf(s2, u) == PcOf(s, u)
    ensures CarvedBy(c, s, s2, t, k, p, h, n) && s2.cursor == s1.cursor
  {
    hide Inv, Slots, Group, HeadsOf, Shifted, Get, Range;
    TransitApart(c, s, t, p, Range(h, n));
    SpansCarved(s.spans, s1.spans, s4.spans, t, p, Range(h, n), HeadsOf(c, k, h, n), Group(c, k));
  }

  lemma SpansCarved(m: Layout<Owner, nat>, m1: Layout<Owner, nat>, m2: Layout<Owner, nat>, t: Tid, p: Owner, x: set<nat>, hs: set<nat>, g: nat)
    requires p != Transit(t) && !p.SmallGroup? && Shifted(m, m1, p, Transit(t), x) && Get(m, Transit(t)) - x == Get(m, Transit(t))
    requires forall q :: Get(m2, q) == if q.SmallGroup? && q.h in hs then Get(m1, q) + Range(q.h, g)
                                       else if q == Transit(t) then Get(m1, q) - x else Get(m1, q)
    ensures forall q :: Get(m2, q) == if q.SmallGroup? && q.h in hs then Get(m, q) + Range(q.h, g)
                                      else if q == p then Get(m, q) - x else Get(m, q)
  {
  }
}
