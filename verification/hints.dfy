/** Reuse hints that name a span homed on another shard. */
module Hints {
  // When trusting one is safe, and a run that produces one that is not.

  import opened Words
  import opened Geometry
  import opened Places
  import opened Lifecycle
  import opened Steps
  import opened Safety
  import opened Moves
  import opened Finishing

  // --- a hint homed elsewhere ------------------------------------------------------------

  /** What `central_take` does with a hint that passes its class check: scan the span, wherever it
      is homed. */
  function ScanHint(s: State, t: Tid, k: Cell, w: nat): State {
    Goto(s, t, Scan(k, HintOf(s, k), w, Take))
  }

  /** Thread `t` is about to trust the hint of its cell, and the hinted span is tiled and has slots in word `w`. */
  ghost predicate HintAtStake(c: Config, s: State, t: Tid, k: Cell, w: nat)
    requires ConfigOk(c)
  {
    var h := HintOf(s, k);
    && PcOf(s, t) == Holding(k) && HintClassOk(s, k, h) && h in s.small
    && ValidCell(c, s.small[h]) && 64 * w < Slots(c, s.small[h])
  }

  /** Two threads hold the same slot. */
  ghost predicate HandedOutTwice(s: State, t: Tid, u: Tid, o: Obj) {
    t != u && o in Get(s.at, Out(t)) && o in Get(s.at, Out(u))
  }

  // --- a foreign hint collides -------------------------------------------------------------

  lemma {:induction false} OtherThan(x: set<nat>) returns (u: nat)
    ensures u !in x && forall y | y in x :: y < u
  {
    if x == {} {
      u := 0;
    } else {
      var y :| y in x;
      var v := OtherThan(x - {y});
      u := if y < v then v else y + 1;
      assert forall z | z in x :: z == y || z in x - {y};
    }
  }

  /** There is always one more thread. */
  lemma IdleThread(s: State, t: Tid) returns (u: Tid)
    ensures u != t && PcOf(s, u) == Idle
  {
    u := OtherThan(s.pc.Keys + {t});
  }

  /** Both cells' holders fold the word before either clears its bits, so a hinted scan of a span homed on
      another shard can hand one slot out twice. Nothing is asked of the word: if the slot is out, it comes back
      first. Nor is anything asked of the owner's lock: whoever is inside it gets out of it first, if need be by
      retiring the span, which is then carved again. */
  lemma ForeignHintCollides(c: Config, s: State, t: Tid, k: Cell, w: nat) returns (bad: State, u: Tid, o: Obj)
    requires ConfigOk(c) && Inv(c, s) && HintAtStake(c, s, t, k, w) && s.small[HintOf(s, k)] != k
    ensures Reaches(c, ScanHint(s, t, k, w), bad) && HandedOutTwice(bad, t, u, o)
  {
    hide SpansOk, LargeOk, SmallOk, SlotsOk, TableOk, Closed, Reaches;
    var h := HintOf(s, k);
    var s1 := ScanHint(s, t, k, w);
    u := IdleThread(s, t);
    o := Obj(h, 64 * w);
    ReachSelf(c, s1);
    ReachableClosed(c, s1);
    GroupWithin(c, s, h);
    assert PcOk(c, s, t) && LockOf(PcOf(s, t)) == Some(k);
    bad := Collide(c, (iset s2 | Reaches(c, s1, s2)), s, s1, t, k, s.small[h], w, u, o);
  }

  /** Thread `v` is inside the lock of cell `k`, or nobody is. */
  ghost predicate HeldBy(c: Config, s: State, v: Option<Tid>, k: Cell)
    requires ConfigOk(c)
  {
    if v.Some? then Inside(c, s, v.value, k) else Unlocked(s, k)
  }

  /** Threads `t` and `u` stand where they stood. */
  ghost predicate BothStay(s: State, s2: State, t: Tid, u: Tid) {
    PcOf(s2, t) == PcOf(s, t) && PcOf(s2, u) == PcOf(s, u)
  }

  /** Slot `o` of a span of cell `k` is free, deposited or not. */
  ghost predicate AnyFree(c: Config, s: State, k: Cell, o: Obj)
    requires ConfigOk(c)
  {
    && ValidCell(c, k) && o.span in s.small && s.small[o.span] == k && o.slot < Slots(c, k)
    && o in Get(s.at, FreeWords) + Get(s.at, AllocWords) && o.span + Group(c, k) <= |s.table|
  }

  lemma Collide(c: Config, r: iset<State>, s: State, s1: State, t: Tid, k: Cell, k2: Cell, w: nat, u: Tid, o: Obj) returns (bad: State)
    requires ConfigOk(c) && Inv(c, s) && Closed(c, r) && s1 in r && t != u && k != k2 && ValidCell(c, k) && ValidCell(c, k2)
    requires s1 == s.(pc := s1.pc) && Moved(s, s1, t, Scan(k, o.span, w, Take)) && PcOf(s, u) == Idle && LockOf(PcOf(s, t)) == Some(k)
    requires o.span in s.small && s.small[o.span] == k2 && o.slot == 64 * w < Slots(c, k2) && o.span + Group(c, k2) <= |s.table|
    ensures bad in r && HandedOutTwice(bad, t, u, o)
  {
    hide Inv, Closed, Inside, AnyFree;
    var v := Holder(c, s, s1, t, k, k2);
    var s2 := MakeFree(c, r, s, s1, t, u, k2, v, o);
    var s3 := FoldFinds(c, r, s2, t, k, k2, w, o);
    HeldStays(c, s2, s3, t, v, k2);
    var s4 := s3;
    if v.Some? {
      s4 := Finish(c, r, s3, v.value, k2, o);
    }
    var s5 := DoLock(c, r, s4, u, k2);
    var s6 := DoScan(c, r, s5, u, k2, o.span, w);
    AnyFreeStays(c, s4, s6, k2, o);
    var s7 := FoldFinds(c, r, s6, u, k2, k2, w, o);
    bad := BothTake(c, r, s7, t, u, o);
  }

  lemma HeldStays(c: Config, s: State, s2: State, t: Tid, v: Option<Tid>, k2: Cell)
    requires ConfigOk(c) && HeldBy(c, s, v, k2) && v != Some(t) && Moved(s, s2, t, PcOf(s2, t)) && |s2.table| == |s.table|
    requires LockOf(PcOf(s2, t)) != Some(k2)
    ensures HeldBy(c, s2, v, k2)
  {
    hide CanGo;
  }

  lemma AnyFreeStays(c: Config, s: State, s2: State, k: Cell, o: Obj)
    requires ConfigOk(c) && FreeIn(c, s, k, o) && s2 == s.(pc := s2.pc)
    ensures AnyFree(c, s2, k, o)
  {
  }

  /** Who is inside the lock of `k2` while `t` is inside that of `k`. */
  lemma Holder(c: Config, s: State, s1: State, t: Tid, k: Cell, k2: Cell) returns (v: Option<Tid>)
    requires ConfigOk(c) && Inv(c, s) && k != k2 && LockOf(PcOf(s, t)) == Some(k) && ValidCell(c, k2)
    requires s1 == s.(pc := s1.pc) && Moved(s, s1, t, PcOf(s1, t)) && LockOf(PcOf(s1, t)) == Some(k)
    ensures HeldBy(c, s1, v, k2) && HeldBy(c, s, v, k2) && v != Some(t)
  {
    hide Inv, CanGo;
    v := None;
    if x :| LockOf(PcOf(s, x)) == Some(k2) {
      v := Some(x);
      HolderInside(c, s, x, k2);
    }
  }

  /** A slot can be made free, by others than `t`: it is free, or the holder of its cell's lock has it on the way
      to the private bitmap, or it can be freed. */
  lemma MakeFree(c: Config, r: iset<State>, s: State, s1: State, t: Tid, u: Tid, k2: Cell, v: Option<Tid>, o: Obj) returns (s2: State)
    requires ConfigOk(c) && Inv(c, s) && Closed(c, r) && s1 in r && s1 == s.(pc := s1.pc) && Moved(s, s1, t, PcOf(s1, t))
    requires HeldBy(c, s, v, k2) && HeldBy(c, s1, v, k2) && v != Some(t) && PcOf(s, u) == Idle && t != u
    requires o.span in s.small && s.small[o.span] == k2 && ValidCell(c, k2) && o.slot < Slots(c, k2)
    requires o.span + Group(c, k2) <= |s.table|
    ensures s2 in r && BothStay(s1, s2, t, u) && HeldBy(c, s2, v, k2) && AnyFree(c, s2, k2, o)
  {
    hide Inv, Closed, CanGo, Enabled, Apply;
    var p := WhereIs(c, s, k2, o);
    if p.Fold? {
      assert v == Some(p.t);
      s2 := MergeOne(c, r, s1, p.t, k2, o);
    } else {
      s2 := BringBack(c, r, s1, p, u, o);
      assert forall x :: PcOf(s2, x) == PcOf(s1, x);
    }
  }

  /** The holder merges what it has swapped out. */
  lemma MergeOne(c: Config, r: iset<State>, s: State, v: Tid, k: Cell, o: Obj) returns (s2: State)
    requires ConfigOk(c) && Closed(c, r) && s in r && Inside(c, s, v, k) && PcOf(s, v).Swapped? && o in Get(s.at, Fold(v))
    ensures s2 in r && Inside(c, s2, v, k) && Moved(s, s2, v, PcOf(s2, v)) && s2 == s.(pc := s2.pc, at := s2.at)
    ensures o in Get(s2.at, AllocWords)
  {
    hide CanGo, Distance;
    StepOn(c, s, v, k);
    s2 := Apply(c, s, Merge(v));
  }

  /** A slot that is not in a fold is deposited, unless it is free already. */
  lemma BringBack(c: Config, r: iset<State>, s: State, p: Place, u: Tid, o: Obj) returns (s2: State)
    requires ConfigOk(c) && Closed(c, r) && s in r && o in Get(s.at, p) && !p.Fold?
    ensures s2 in r && s2 == s.(at := s2.at) && o in Get(s2.at, FreeWords) + Get(s2.at, AllocWords)
  {
    hide Closed;
    s2 := s;
    if Private(p) {
      var s3 := DoHand(c, r, s, p, Mask(u), {o});
      s2 := DoDeposit(c, r, s3, u, o.span, o.slot / 64);
      assert o in WordOf(Get(s3.at, Mask(u)), o.span, o.slot / 64) && o in Get(s2.at, FreeWords);
    }
  }

  /** A tiled slot is somewhere; if it is in a fold, that is the lock holder's. */
  lemma WhereIs(c: Config, s: State, k2: Cell, o: Obj) returns (p: Place)
    requires ConfigOk(c) && Inv(c, s) && o.span in s.small && s.small[o.span] == k2 && ValidCell(c, k2) && o.slot < Slots(c, k2)
    ensures o in Get(s.at, p)
    ensures p.Fold? ==> PcOf(s, p.t).Swapped? && LockOf(PcOf(s, p.t)) == Some(k2)
  {
    hide SpansOk, LargeOk, TableOk, JobOk;
    assert Tiled(c, s.small, o);
    p :| o in Get(s.at, p);
    if p.Fold? {
      assert PcOk(c, s, p.t);
      WordIsOwn(c, s, PcOf(s, p.t).k, o.span);
    }
  }

  /** A fold of the word of `o` for a take finds `o`, and leaves it free in the private bitmap. */
  lemma FoldFinds(c: Config, r: iset<State>, s: State, t: Tid, k: Cell, k2: Cell, w: nat, o: Obj) returns (s3: State)
    requires ConfigOk(c) && Closed(c, r) && s in r && ValidCell(c, k) && PcOf(s, t) == Scan(k, o.span, w, Take)
    requires o.slot / 64 == w && AnyFree(c, s, k2, o)
    ensures s3 in r && Moved(s, s3, t, PcOf(s3, t)) && |s3.table| == |s.table| && FreeIn(c, s3, k2, o)
    ensures PcOf(s3, t).Have? && PcOf(s3, t).k == k && o in PcOf(s3, t).word
  {
    hide Closed, ConfigOk, ValidCell, Slots, Group;
    assert o in WordOf(Get(s.at, FreeWords), o.span, w) + WordOf(Get(s.at, AllocWords), o.span, w);
    s3 := DoPeek(c, r, s, t);
    if PcOf(s3, t).Peeked? {
      var s2 := DoSwap(c, r, s3, t);
      GetMove(s3.at, FreeWords, Fold(t), WordOf(Get(s3.at, FreeWords), o.span, w));
      s3 := DoMerge(c, r, s2, t);
      GetMove(s2.at, Fold(t), AllocWords, Get(s2.at, Fold(t)));
    }
  }

  /** Two holders that both have a slot in hand both hand it out. */
  lemma BothTake(c: Config, r: iset<State>, s: State, t: Tid, u: Tid, o: Obj) returns (s3: State)
    requires ConfigOk(c) && Closed(c, r) && s in r && t != u && PcOf(s, t).Have? && PcOf(s, u).Have?
    requires o in PcOf(s, t).word && o in PcOf(s, u).word
    ensures s3 in r && HandedOutTwice(s3, t, u, o)
  {
    hide Closed;
    var s2 := DoTake(c, r, s, t, PcOf(s, t).k, {o});
    s3 := DoTake(c, r, s2, u, PcOf(s, u).k, {o});
  }

  // --- exactly when a hint is safe -----------------------------------------------------------

  /** A hint homed on the shard that reads it is safe to trust, whatever follows. */
  lemma HomedHintIsSafe(c: Config, s: State, t: Tid, k: Cell, w: nat, s2: State)
    requires ConfigOk(c) && Inv(c, s) && PcOf(s, t) == Holding(k) && HintHomeOk(c, s, k, HintOf(s, k))
    requires Reaches(c, ScanHint(s, t, k, w), s2)
    ensures Inv(c, s2)
  {
    StepKeepsInv(c, s, BeginHint(t, w));
    assert Apply(c, s, BeginHint(t, w)) == ScanHint(s, t, k, w);
    var acts :| CanRun(c, ScanHint(s, t, k, w), acts) && After(c, ScanHint(s, t, k, w), acts) == s2;
    RunKeepsInv(c, ScanHint(s, t, k, w), acts);
  }

  /** So trusting a hint by class alone is safe, whatever follows, if and only if the hinted span is
      also homed on the shard that reads it. */
  lemma HintSafeIffHomed(c: Config, s: State, t: Tid, k: Cell, w: nat)
    requires ConfigOk(c) && Inv(c, s) && HintAtStake(c, s, t, k, w)
    ensures HintHomeOk(c, s, k, HintOf(s, k)) <==>
            forall s2 | Reaches(c, ScanHint(s, t, k, w), s2) :: Exclusive(s2.at)
  {
    if HintHomeOk(c, s, k, HintOf(s, k)) {
      forall s2 | Reaches(c, ScanHint(s, t, k, w), s2) ensures Exclusive(s2.at) {
        HomedHintIsSafe(c, s, t, k, w, s2);
      }
    } else {
      NotOwnHint(c, s, t, k, w);
      var bad, u, o := ForeignHintCollides(c, s, t, k, w);
      assert !Exclusive(bad.at);
    }
  }

  /** A hinted head that passes the class check is homed on the reading shard exactly if it is on the reading
      cell's list: nobody is retiring it. */
  lemma NotOwnHint(c: Config, s: State, t: Tid, k: Cell, w: nat)
    requires ConfigOk(c) && Inv(c, s) && HintAtStake(c, s, t, k, w)
    ensures HintHomeOk(c, s, k, HintOf(s, k)) <==> s.small[HintOf(s, k)] == k
  {
    hide SpansOk, LargeOk, SlotsOk, JobOk;
    var h := HintOf(s, k);
    assert InGroup(c, s.small, s.small[h], h, h) && LockOf(PcOf(s, t)) == Some(k);
    forall v ensures !Marked(s, v, h, h) { assert PcOk(c, s, v); }
    SmallMod(s.table[h].home, c.shards);
  }

  // --- a stale foreign hint is reachable -----------------------------------------------------

  /** One span, two shards, one class of span-sized objects. */
  function Tiny(): (c: Config)
    ensures ConfigOk(c)
  {
    Config(0, 1, 2, [0, 65536])
  }

  function K(shard: nat): Cell { Cell(shard, 1) }

  const O: Obj := Obj(0, 0)

  lemma TinyTiles(k: Cell)
    requires k == K(0) || k == K(1)
    ensures ValidCell(Tiny(), k) && Group(Tiny(), k) == Slots(Tiny(), k) == 1 && Tiles(Tiny(), k, 0) == {O} && Range(0, 1) == {0}
  {
  }

  /** The one slot is at `p` and nowhere else. */
  ghost predicate Only(at: Layout<Place, Obj>, p: Place) {
    Get(at, p) == {O} && forall q | q != p :: Get(at, q) == {}
  }

  ghost predicate Nowhere(at: Layout<Place, Obj>) {
    forall p :: Get(at, p) == {}
  }

  lemma MovedOnly(at: Layout<Place, Obj>, p: Place, q: Place)
    requires Only(at, p) && p != q
    ensures Only(Move(at, p, q, {O}), q) && Only(Move(at, p, q, {}), p)
  {
    GetMove(at, p, q, {O});
    GetMove(at, p, q, {});
    assert {O} - {O} == {} && {O} - {} == {O} && {} + {O} == {O};
  }

  lemma PutOnly(at: Layout<Place, Obj>)
    requires Nowhere(at)
    ensures Only(Put(at, AllocWords, {O}), AllocWords)
  {
    assert forall q | q != AllocWords :: Get(Put(at, AllocWords, {O}), q) == Get(at, q);
  }

  lemma DroppedOnly(at: Layout<Place, Obj>)
    requires Only(at, AllocWords)
    ensures Nowhere(Drop(Drop(at, AllocWords, {O}), FreeWords, {O}))
  {
    var at1 := Drop(at, AllocWords, {O});
    assert Get(at1, AllocWords) == {O} - {O} && forall q | q != AllocWords :: Get(at1, q) == Get(at, q) == {};
    var at2 := Drop(at1, FreeWords, {O});
    assert Get(at2, FreeWords) == {} && forall q | q != FreeWords :: Get(at2, q) == Get(at1, q);
  }

  /** Thread `t` carves span 0 for shard `k.shard`. */
  lemma TinyCarve(r: iset<State>, s: State, t: Tid, k: Cell, pool: bool) returns (s6: State)
    requires (k == K(0) || k == K(1)) && Closed(Tiny(), r) && s in r && PcOf(s, t) == Idle && Unlocked(s, k)
    requires if pool then 0 in Get(s.spans, Pool) else s.cursor == 0
    requires |s.table| == 1 && Nowhere(s.at)
    ensures s6 in r && Moved(s, s6, t, Idle)
    ensures s6.small == s.small[0 := k] && s6.table == [Tag(1, k.shard)] && s6.hint == s.hint
    ensures Only(s6.at, AllocWords) && 0 in Get(s6.spans, SmallGroup(0))
  {
    hide Closed, Unlocked, Only, Nowhere, Tiles, Group, ConfigOk, ValidCell;
    var c := Tiny();
    TinyTiles(k);
    var s1 := DoLock(c, r, s, t, k);
    var s2 := DoClaim(c, r, s1, t, k, pool);
    var s3 := DoTag(c, r, s2, t, k);
    var s4 := DoTile(c, r, s3, t, k);
    PutOnly(s3.at);
    var s5 := DoCarveDone(c, r, s4, t, k);
    s6 := DoUnlock(c, r, s5, t);
  }

  lemma TinyTake(r: iset<State>, s: State, t: Tid, k: Cell) returns (s5: State)
    requires (k == K(0) || k == K(1)) && Closed(Tiny(), r) && s in r && PcOf(s, t) == Idle && Unlocked(s, k)
    requires 0 in s.small && s.small[0] == k && Only(s.at, AllocWords)
    ensures s5 in r && Moved(s, s5, t, Idle) && s5 == s.(at := s5.at, pc := s5.pc)
    ensures Only(s5.at, Out(t))
  {
    var c := Tiny();
    TinyTiles(k);
    var s1 := DoLock(c, r, s, t, k);
    var s2 := DoScan(c, r, s1, t, k, 0, 0);
    var s3 := DoPeek(c, r, s2, t);
    assert WordOf({O}, 0, 0) == {O};
    MovedOnly(s3.at, AllocWords, Out(t));
    var s4 := DoTake(c, r, s3, t, k, {O});
    s5 := DoUnlock(c, r, s4, t);
  }

  /** Thread `t` takes the slot, and thread `u` frees it, in a batch, with a deposit. */
  lemma TinyTakeAndFree(r: iset<State>, s: State, t: Tid, k: Cell, u: Tid) returns (s4: State)
    requires (k == K(0) || k == K(1)) && Closed(Tiny(), r) && s in r && PcOf(s, t) == Idle && Unlocked(s, k)
    requires 0 in s.small && s.small[0] == k && Only(s.at, AllocWords)
    ensures s4 in r && Moved(s, s4, t, Idle) && s4 == s.(at := s4.at, pc := s4.pc)
    ensures Only(s4.at, FreeWords)
  {
    hide Closed, Unlocked;
    var c := Tiny();
    var s1 := TinyTake(r, s, t, k);
    MovedOnly(s1.at, Out(t), Live);
    var s2 := DoHand(c, r, s1, Out(t), Live, {O});
    MovedOnly(s2.at, Live, Mask(u));
    var s3 := DoHand(c, r, s2, Live, Mask(u), {O});
    MovedOnly(s3.at, Mask(u), FreeWords);
    assert WordOf({O}, 0, 0) == {O};
    s4 := DoDeposit(c, r, s3, u, 0, 0);
  }

  /** A sweep by thread `t` folds the freed slot back, counts it and finds the span empty. */
  lemma TinyCheck(r: iset<State>, s: State, t: Tid, k: Cell) returns (s4: State)
    requires (k == K(0) || k == K(1)) && Closed(Tiny(), r) && s in r && PcOf(s, t) == Idle && Unlocked(s, k)
    requires 0 in s.small && s.small[0] == k && Only(s.at, FreeWords)
    ensures s4 in r && Moved(s, s4, t, Emptied(k, 0)) && s4 == s.(at := s4.at, pc := s4.pc)
    ensures Only(s4.at, AllocWords)
  {
    hide Closed, Unlocked, Slots;
    var c := Tiny();
    TinyTiles(k);
    var s1 := DoLock(c, r, s, t, k);
    var s2 := DoCheck(c, r, s1, t, k);
    var s3 := TinyCount(r, s2, t, k);
    assert WordOf({}, 0, 0) == {};
    s4 := DoRead(c, r, s3, t, k);
  }

  lemma TinyCount(r: iset<State>, s: State, t: Tid, k: Cell) returns (s3: State)
    requires (k == K(0) || k == K(1)) && Closed(Tiny(), r) && s in r && PcOf(s, t) == Scan(k, 0, 0, Count(0))
    requires Only(s.at, FreeWords)
    ensures s3 in r && Moved(s, s3, t, Reread(k, 0, 0)) && s3 == s.(at := s3.at, pc := s3.pc)
    ensures Only(s3.at, AllocWords)
  {
    hide Closed, Slots, Only, Move, Get, Tiny, ValidCell;
    var c := Tiny();
    TinyTiles(k);
    OnlyWord(s.at, FreeWords);
    var s1 := DoPeek(c, r, s, t);
    MovedOnly(s1.at, FreeWords, Fold(t));
    var s2 := DoSwap(c, r, s1, t);
    OnlyWord(s2.at, Fold(t));
    MovedOnly(s2.at, Fold(t), AllocWords);
    s3 := DoMerge(c, r, s2, t);
    assert {} + {O} == {O} && |{O}| == 1;
  }

  lemma OnlyWord(at: Layout<Place, Obj>, p: Place)
    requires Only(at, p)
    ensures Get(at, p) == WordOf(Get(at, p), 0, 0) == {O} && forall q | q != p :: WordOf(Get(at, q), 0, 0) == {}
  {
    assert WordOf({O}, 0, 0) == {O};
  }

  /** ... retires the span and files it. */
  lemma TinyRetire(r: iset<State>, s: State, t: Tid, k: Cell) returns (s6: State)
    requires (k == K(0) || k == K(1)) && Closed(Tiny(), r) && s in r && PcOf(s, t) == Emptied(k, 0)
    requires |s.table| == 1 && Only(s.at, AllocWords) && 0 in Get(s.spans, SmallGroup(0))
    ensures s6 in r && Moved(s, s6, t, Idle) && Nowhere(s6.at)
    ensures s6.small == s.small - {0} && |s6.table| == 1 && 0 in Get(s6.spans, Pool)
  {
    var c := Tiny();
    TinyTiles(k);
    var s2 := DoUnlink(c, r, s, t, k);
    var s3 := DoRetag(c, r, s2, t, k);
    DroppedOnly(s3.at);
    var s4 := DoReset(c, r, s3, t, k, 0);
    var s5 := DoUnlock(c, r, s4, t);
    s6 := DoFile(c, r, s5, t, 0, 1);
  }

  /** A thread of shard 1 frees a slot of shard 0 and is preempted between reading the home of the span it
      deposited into and storing the hint. */
  lemma Preempted(r: iset<State>) returns (s: State)
    requires Closed(Tiny(), r) && Initial(Tiny()) in r
    ensures s in r && PcOf(s, 1) == Hinting(K(0), 0) && forall t | t != 1 :: PcOf(s, t) == Idle
    ensures 0 in s.small && s.small[0] == K(0) && |s.table| == 1 && Only(s.at, FreeWords) && 0 in Get(s.spans, SmallGroup(0))
  {
    hide Closed, Only;
    var c := Tiny();
    var a1 := TinyCarve(r, Initial(c), 0, K(0), false);
    var a2 := TinyTakeAndFree(r, a1, 0, K(0), 1);
    s := DoHintRead(c, r, a2, 1, 1);
  }

  /** Meanwhile the span is retired, and carved by its own shard for the same class. */
  lemma StaleHint(r: iset<State>) returns (s: State)
    requires Closed(Tiny(), r) && Initial(Tiny()) in r
    ensures s in r && HintAtStake(Tiny(), s, 0, K(0), 0)
    ensures !HintHomeOk(Tiny(), s, K(0), HintOf(s, K(0))) && HintOf(s, K(0)) == 0 && s.small[0] == K(1)
  {
    hide Closed, Only, Nowhere;
    var c := Tiny();
    var a3 := Preempted(r);
    var a4 := TinyCheck(r, a3, 2, K(0));
    var a5 := TinyRetire(r, a4, 2, K(0));
    var a6 := TinyCarve(r, a5, 3, K(1), true);
    var a7 := DoHintWrite(c, r, a6, 1, K(0));
    TinyTiles(K(0));
    TinyTiles(K(1));
    s := DoLock(c, r, a7, 0, K(0));
  }

  /** So a foreign hint does arise, and from there the reader and another thread are handed one slot. */
  lemma StaleHintDoubleHandOut() returns (s: State, bad: State, u: Tid, o: Obj)
    ensures Reaches(Tiny(), Initial(Tiny()), s) && HintAtStake(Tiny(), s, 0, K(0), 0)
    ensures !HintHomeOk(Tiny(), s, K(0), HintOf(s, K(0)))
    ensures Reaches(Tiny(), ScanHint(s, 0, K(0), 0), bad) && HandedOutTwice(bad, 0, u, o)
  {
    ReachSelf(Tiny(), Initial(Tiny()));
    ReachableClosed(Tiny(), Initial(Tiny()));
    s := StaleHint(iset s | Reaches(Tiny(), Initial(Tiny()), s));
    ReachableInv(Tiny(), s);
    bad, u, o := ForeignHintCollides(Tiny(), s, 0, K(0), 0);
  }
}
