/** Runs of the span and slot machine, put together one step at a time. The states that some run reaches from a given
    one are a set that no step leads out of; each lemma below takes one step from a state of such a set and says
    what is different afterwards, so that a run of many steps is a sequence of calls and no state has to be
    written out in full. */
module Moves {
  import opened Words
  import opened Geometry
  import opened Places
  import opened Lifecycle
  import opened Safety

  /** Some run leads from `s` to `s2`. */
  ghost predicate Reaches(c: Config, s: State, s2: State)
    requires ConfigOk(c)
  {
    exists acts :: CanRun(c, s, acts) && After(c, s, acts) == s2
  }

  lemma {:induction false} RunAppend(c: Config, s: State, xs: seq<Action>, ys: seq<Action>)
    requires ConfigOk(c) && CanRun(c, s, xs) && CanRun(c, After(c, s, xs), ys)
    ensures CanRun(c, s, xs + ys) && After(c, s, xs + ys) == After(c, After(c, s, xs), ys)
    decreases |xs|
  {
    if xs == [] {
      assert xs + ys == ys;
    } else {
      assert (xs + ys)[1..] == xs[1..] + ys;
      RunAppend(c, Apply(c, s, xs[0]), xs[1..], ys);
    }
  }

  lemma ReachThen(c: Config, s: State, s2: State, a: Action)
    requires ConfigOk(c) && Reaches(c, s, s2) && Enabled(c, s2, a)
    ensures Reaches(c, s, Apply(c, s2, a))
  {
    var xs :| CanRun(c, s, xs) && After(c, s, xs) == s2;
    var one, s3 := [a], Apply(c, s2, a);
    assert one[1..] == [] && CanRun(c, s3, []) && After(c, s3, []) == s3;
    assert After(c, s2, one) == After(c, s3, one[1..]);
    RunAppend(c, s, xs, [a]);
  }

  lemma ReachSelf(c: Config, s: State)
    requires ConfigOk(c)
    ensures Reaches(c, s, s)
  {
    assert CanRun(c, s, []) && After(c, s, []) == s;
  }

  /** No step leads out of `r`. */
  ghost predicate Closed(c: Config, r: iset<State>)
    requires ConfigOk(c)
  {
    forall s, a {:trigger Enabled(c, s, a)} | s in r && Enabled(c, s, a) :: Apply(c, s, a) in r
  }

  lemma ReachableClosed(c: Config, s0: State)
    requires ConfigOk(c)
    ensures Closed(c, iset s | Reaches(c, s0, s))
  {
    forall s, a {:trigger Enabled(c, s, a)} | Reaches(c, s0, s) && Enabled(c, s, a) ensures Reaches(c, s0, Apply(c, s, a)) {
      ReachThen(c, s0, s, a);
    }
  }

  /** Threads other than `t` stand where they stood, and `t` is now at `p`. */
  ghost predicate Moved(s: State, s2: State, t: Tid, p: Pc) {
    PcOf(s2, t) == p && forall u | u != t :: PcOf(s2, u) == PcOf(s, u)
  }

  lemma DoLock(c: Config, r: iset<State>, s: State, t: Tid, k: Cell) returns (s2: State)
    requires ConfigOk(c) && Closed(c, r) && s in r && PcOf(s, t) == Idle && ValidCell(c, k) && Unlocked(s, k)
    ensures s2 in r && s2 == s.(pc := s2.pc) && Moved(s, s2, t, Holding(k))
  {
    s2 := Apply(c, s, Lock(t, k));
  }

  lemma DoUnlock(c: Config, r: iset<State>, s: State, t: Tid) returns (s2: State)
    requires ConfigOk(c) && Closed(c, r) && s in r && PcOf(s, t).Holding?
    ensures s2 in r && s2 == s.(pc := s2.pc) && Moved(s, s2, t, Idle)
  {
    s2 := Apply(c, s, Unlock(t));
  }

  lemma DoClaim(c: Config, r: iset<State>, s: State, t: Tid, k: Cell, pool: bool) returns (s2: State)
    requires ConfigOk(c) && Closed(c, r) && s in r && PcOf(s, t) == Holding(k) && ValidCell(c, k) && Group(c, k) == 1
    requires if pool then Range(0, 1) <= Get(s.spans, Pool) else s.cursor == 0 < c.numSpans
    ensures s2 in r && s2 == s.(pc := s2.pc, spans := s2.spans, cursor := s2.cursor)
    ensures Moved(s, s2, t, Claimed(k, 0, 1, 0))
    ensures s2.spans == Move(s.spans, if pool then Pool else Uncarved, Transit(t), Range(0, 1))
  {
    if pool {
        s2 := Apply(c, s, ClaimPool(t, 0, 1));
    } else {
        s2 := Apply(c, s, ClaimBump(t, 1));
    }
  }

  lemma DoClaimPool(c: Config, r: iset<State>, s: State, t: Tid, k: Cell, h: nat, n: nat) returns (s2: State)
    requires ConfigOk(c) && Closed(c, r) && s in r && PcOf(s, t) == Holding(k) && ValidCell(c, k) && FullGroup(c, k, n)
    requires n >= 1 && Range(h, n) <= Get(s.spans, Pool)
    ensures s2 in r && s2 == s.(pc := s2.pc, spans := s2.spans) && Moved(s, s2, t, Claimed(k, h, n, 0))
  {
    s2 := Apply(c, s, ClaimPool(t, h, n));
  }

  lemma DoTag(c: Config, r: iset<State>, s: State, t: Tid, k: Cell) returns (s2: State)
    requires ConfigOk(c) && Closed(c, r) && s in r && PcOf(s, t) == Claimed(k, 0, 1, 0) && 1 <= |s.table|
    ensures s2 in r && s2 == s.(pc := s2.pc, table := s2.table) && Moved(s, s2, t, Tagged(k, 0, 1, 0))
    ensures s2.table == s.table[0 := Tag(k.cls, k.shard)]
  {
    s2 := Apply(c, s, TagRun(t));
  }

  lemma DoTile(c: Config, r: iset<State>, s: State, t: Tid, k: Cell) returns (s2: State)
    requires ConfigOk(c) && Closed(c, r) && s in r && PcOf(s, t) == Tagged(k, 0, 1, 0) && ValidCell(c, k) && Group(c, k) == 1
    ensures s2 in r && s2 == s.(pc := s2.pc, small := s.small[0 := k], spans := s2.spans, at := s2.at)
    ensures Moved(s, s2, t, Tagged(k, 0, 1, 1))
    ensures s2.spans == Move(s.spans, Transit(t), SmallGroup(0), Range(0, 1))
    ensures s2.at == Put(s.at, AllocWords, Tiles(c, k, 0))
  {
    s2 := Apply(c, s, Tile(t));
  }

  lemma DoCarveDone(c: Config, r: iset<State>, s: State, t: Tid, k: Cell) returns (s2: State)
    requires ConfigOk(c) && Closed(c, r) && s in r && PcOf(s, t) == Tagged(k, 0, 1, 1)
    ensures s2 in r && s2 == s.(pc := s2.pc) && Moved(s, s2, t, Holding(k))
  {
    s2 := Apply(c, s, CarveDone(t));
  }

  lemma DoScan(c: Config, r: iset<State>, s: State, t: Tid, k: Cell, h: nat, w: nat) returns (s2: State)
    requires ConfigOk(c) && Closed(c, r) && s in r && PcOf(s, t) == Holding(k) && h in s.small && s.small[h] == k
    ensures s2 in r && s2 == s.(pc := s2.pc) && Moved(s, s2, t, Scan(k, h, w, Take))
  {
    s2 := Apply(c, s, BeginScan(t, h, w));
  }

  lemma DoCheck(c: Config, r: iset<State>, s: State, t: Tid, k: Cell) returns (s2: State)
    requires ConfigOk(c) && Closed(c, r) && s in r && PcOf(s, t) == Holding(k) && 0 in s.small && s.small[0] == k
    ensures s2 in r && s2 == s.(pc := s2.pc) && Moved(s, s2, t, Scan(k, 0, 0, Count(0)))
  {
    s2 := Apply(c, s, BeginCheck(t, 0));
  }

  lemma DoPeek(c: Config, r: iset<State>, s: State, t: Tid) returns (s2: State)
    requires ConfigOk(c) && Closed(c, r) && s in r && PcOf(s, t).Scan? && ValidCell(c, PcOf(s, t).k)
    ensures s2 in r && s2 == s.(pc := s2.pc)
    ensures var Scan(k, h, w, job) := PcOf(s, t);
            Moved(s, s2, t, if WordOf(Get(s.at, FreeWords), h, w) == {} then Folded(c, k, h, w, job, WordOf(Get(s.at, AllocWords), h, w))
                            else Peeked(k, h, w, job))
  {
    var a := if WordOf(Get(s.at, FreeWords), PcOf(s, t).span, PcOf(s, t).w) == {} then PeekZero(t) else PeekNonZero(t);
    s2 := Apply(c, s, a);
  }

  lemma DoSwap(c: Config, r: iset<State>, s: State, t: Tid) returns (s2: State)
    requires ConfigOk(c) && Closed(c, r) && s in r && PcOf(s, t).Peeked?
    ensures var Peeked(k, h, w, job) := PcOf(s, t);
            Moved(s, s2, t, Swapped(k, h, w, job)) && s2.at == Move(s.at, FreeWords, Fold(t), WordOf(Get(s.at, FreeWords), h, w))
    ensures s2 in r && s2 == s.(pc := s2.pc, at := s2.at)
  {
    s2 := Apply(c, s, Swap(t));
  }

  lemma DoMerge(c: Config, r: iset<State>, s: State, t: Tid) returns (s2: State)
    requires ConfigOk(c) && Closed(c, r) && s in r && PcOf(s, t).Swapped? && ValidCell(c, PcOf(s, t).k)
    ensures s2 in r && s2 == s.(pc := s2.pc, at := s2.at)
    ensures s2.at == Move(s.at, Fold(t), AllocWords, Get(s.at, Fold(t)))
    ensures var Swapped(k, h, w, job) := PcOf(s, t);
            Moved(s, s2, t, Folded(c, k, h, w, job, WordOf(Get(s.at, AllocWords), h, w) + Get(s.at, Fold(t))))
  {
    s2 := Apply(c, s, Merge(t));
  }

  lemma DoRead(c: Config, r: iset<State>, s: State, t: Tid, k: Cell) returns (s2: State)
    requires ConfigOk(c) && Closed(c, r) && s in r && PcOf(s, t) == Reread(k, 0, 0) && ValidCell(c, k) && Slots(c, k) <= 64
    requires WordOf(Get(s.at, FreeWords), 0, 0) == {}
    ensures s2 in r && s2 == s.(pc := s2.pc) && Moved(s, s2, t, Emptied(k, 0))
  {
    s2 := Apply(c, s, ReadZero(t));
  }

  lemma DoTake(c: Config, r: iset<State>, s: State, t: Tid, k: Cell, x: set<Obj>) returns (s2: State)
    requires ConfigOk(c) && Closed(c, r) && s in r && PcOf(s, t).Have? && PcOf(s, t).k == k && x <= PcOf(s, t).word
    ensures s2 in r && s2 == s.(pc := s2.pc, at := s2.at) && Moved(s, s2, t, Holding(k))
    ensures s2.at == Move(s.at, AllocWords, Out(t), x)
  {
    s2 := Apply(c, s, TakeBits(t, x));
  }

  lemma DoHand(c: Config, r: iset<State>, s: State, p: Place, q: Place, x: set<Obj>) returns (s2: State)
    requires ConfigOk(c) && Closed(c, r) && s in r && Private(p) && Private(q) && x <= Get(s.at, p)
    ensures s2 in r && s2 == s.(at := Move(s.at, p, q, x))
  {
    s2 := Apply(c, s, Hand(p, q, x));
  }

  lemma DoDeposit(c: Config, r: iset<State>, s: State, t: Tid, h: nat, w: nat) returns (s2: State)
    requires ConfigOk(c) && Closed(c, r) && s in r
    ensures s2 in r && s2 == s.(at := s2.at)
    ensures s2.at == Move(s.at, Mask(t), FreeWords, WordOf(Get(s.at, Mask(t)), h, w))
  {
    s2 := Apply(c, s, Deposit(t, h, w));
  }

  lemma DoUnlink(c: Config, r: iset<State>, s: State, t: Tid, k: Cell) returns (s2: State)
    requires ConfigOk(c) && Closed(c, r) && s in r && PcOf(s, t) == Emptied(k, 0)
    ensures s2 in r && s2 == s.(pc := s2.pc, hint := s2.hint) && Moved(s, s2, t, Unlinked(k, 0, 0))
  {
    s2 := Apply(c, s, Unlink(t));
  }

  lemma DoRetag(c: Config, r: iset<State>, s: State, t: Tid, k: Cell) returns (s2: State)
    requires ConfigOk(c) && Closed(c, r) && s in r && PcOf(s, t) == Unlinked(k, 0, 0)
    requires ValidCell(c, k) && 1 <= |s.table|
    ensures s2 in r && s2 == s.(pc := s2.pc, table := s2.table) && Moved(s, s2, t, Unlinked(k, 0, 1))
    ensures |s2.table| == |s.table|
  {
    s2 := Apply(c, s, Retag(t));
  }

  lemma DoReset(c: Config, r: iset<State>, s: State, t: Tid, k: Cell, h: nat) returns (s2: State)
    requires ConfigOk(c) && Closed(c, r) && s in r && ValidCell(c, k) && PcOf(s, t) == Unlinked(k, h, Group(c, k))
    ensures s2 in r && Moved(s, s2, t, Holding(k))
    ensures s2 == s.(pc := s2.pc, small := s.small - {h}, at := s2.at, spans := s2.spans)
    ensures s2.at == Drop(Drop(s.at, AllocWords, Tiles(c, k, h)), FreeWords, Tiles(c, k, h))
    ensures s2.spans == Move(s.spans, SmallGroup(h), Transit(t), Range(h, Group(c, k)))
  {
    s2 := Apply(c, s, ResetBits(t));
  }

  lemma DoFile(c: Config, r: iset<State>, s: State, t: Tid, h: nat, n: nat) returns (s2: State)
    requires ConfigOk(c) && Closed(c, r) && s in r && PcOf(s, t) == Idle && n >= 1 && Range(h, n) <= Get(s.spans, Transit(t))
    ensures s2 in r && s2 == s.(spans := Move(s.spans, Transit(t), Pool, Range(h, n)))
  {
    s2 := Apply(c, s, FileRun(t, h, n));
  }

  lemma DoHintRead(c: Config, r: iset<State>, s: State, t: Tid, cl: nat) returns (s2: State)
    requires ConfigOk(c) && Closed(c, r) && s in r && PcOf(s, t) == Idle && 0 < |s.table| && s.table[0].Tag?
    ensures s2 in r && s2 == s.(pc := s2.pc)
    ensures Moved(s, s2, t, Hinting(Cell(s.table[0].home % c.shards, cl), 0))
  {
    s2 := Apply(c, s, HintRead(t, 0, cl));
  }

  lemma DoHintWrite(c: Config, r: iset<State>, s: State, t: Tid, k: Cell) returns (s2: State)
    requires ConfigOk(c) && Closed(c, r) && s in r && PcOf(s, t) == Hinting(k, 0)
    ensures s2 in r && s2 == s.(pc := s2.pc, hint := s.hint[k := 0]) && Moved(s, s2, t, Idle)
  {
    s2 := Apply(c, s, HintWrite(t));
  }

  lemma ReachableInv(c: Config, s: State)
    requires ConfigOk(c) && Reaches(c, Initial(c), s)
    ensures Inv(c, s)
  {
    var acts :| CanRun(c, Initial(c), acts) && After(c, Initial(c), acts) == s;
    InitialInv(c);
    RunKeepsInv(c, Initial(c), acts);
  }
}
