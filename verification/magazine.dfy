/** A thread's magazine of free pointers and its refill from a central cell, the locked variant of the per-CPU
    stack, and the batched free that coalesces deposits. */
module Magazines {
  import opened Words
  import opened Geometry
  import opened Bitmaps
  import Central
  import SpanPools
  import SpanTables
  import SubHeaps

  const MAG_CAP: nat := 32
  const NULL: nat := 0

  /** A magazine: a stack of free pointers of one class. */
  class Magazine {
    const ptrs: array<nat>
    var len: nat

    ghost predicate Valid()
      reads this
    {
      ptrs.Length == MAG_CAP && len <= MAG_CAP
    }

    /** Bottom first. */
    ghost function Contents(): seq<nat>
      requires Valid()
      reads this, ptrs
    {
      ptrs[..len]
    }

    constructor ()
      ensures Valid() && fresh(ptrs) && Contents() == []
    {
      ptrs := new nat[MAG_CAP];
      len := 0;
    }

    method TryPop() returns (r: Option<nat>)
      requires Valid()
      modifies this`len
      ensures Valid() && (r.None? <==> old(Contents()) == [])
      ensures if r.None? then Contents() == [] else Contents() + [r.value] == old(Contents())
    {
      if len > 0 {
        len := len - 1;
        return Some(ptrs[len]);
      }
      return None;
    }

    method TryPush(p: nat) returns (ok: bool)
      requires Valid()
      modifies this`len, ptrs
      ensures Valid() && (ok <==> |old(Contents())| < MAG_CAP)
      ensures Contents() == if ok then old(Contents()) + [p] else old(Contents())
    {
      if len < MAG_CAP {
        ptrs[len] := p;
        len := len + 1;
        return true;
      }
      return false;
    }

    /** Reverse the first `n` pointers in place. */
    method ReverseFirst(n: nat)
      requires ptrs.Length == MAG_CAP && n <= MAG_CAP
      modifies ptrs
      ensures ptrs[..n] == Reversed(old(ptrs[..n])) && ptrs[n..] == old(ptrs[n..])
    {
      hide Reversed;
      var i := 0;
      while i < n / 2
        invariant i <= n / 2
        invariant forall k | 0 <= k < i :: ptrs[k] == old(ptrs[n - 1 - k]) && ptrs[n - 1 - k] == old(ptrs[k])
        invariant forall k | i <= k < n - i :: ptrs[k] == old(ptrs[k])
        invariant forall k | n <= k < MAG_CAP :: ptrs[k] == old(ptrs[k])
      {
        ptrs[i], ptrs[n - 1 - i] := ptrs[n - 1 - i], ptrs[i];
        i := i + 1;
      }
    }

    /** What the next pops will give, in order. */
    ghost function Upcoming(): seq<nat>
      requires Valid()
      reads this, ptrs
    {
      Reversed(Contents())
    }

    /** Refill an empty magazine from the central cell, with as many objects as it holds, and take one: the first
        of the batch now, and the later pops give the rest in the batch's order. Every object was free and
        is handed out once; fewer than 32 means that the cell, the pool and the arena are exhausted. */
    method Refill(sh: SubHeaps.SubHeap, c: SubHeaps.CentralList, batch: nat) returns (r: Option<nat>, ghost ids: seq<nat>, busy: bool)
      requires Valid() && len == 0 && sh.Valid() && sh.CellFixed(c) && sh.CellOk(c) && Separate(sh)
      modifies this`len, ptrs, sh`owner, sh.bm`tiles, sh.bm`held, sh.bm`kept, sh.bm.freeWords, sh.bm.allocWords
      modifies sh.bm.nextActive, sh.bm.onList, c`head, c`spans, c`reuseHint, sh.pool.Repr(), sh.table.entries, sh.arena
      ensures Valid() && sh.Valid() && sh.CellOk(c) && (r.None? <==> ids == []) && (r.None? ==> Contents() == [])
      ensures r.Some? ==> Central.Lists([r.value] + Upcoming(), ids, sh.base, sh.Size(c))
      ensures Central.Gained(old(sh.bm.kept), sh.bm.kept, ids) && SubHeaps.TiledSlots(ids, sh.bm.tiles, sh.Slots(c))
      ensures |ids| < MAG_CAP ==> sh.Exhausted(c, batch, busy)
    {
      hide SpanPools.SpanPool.Valid, WordsOk, SubHeaps.SubHeap.Valid, SubHeaps.SubHeap.CellOk, SubHeaps.SubHeap.Exhausted, Central.Gained, SubHeaps.TiledSlots, Reversed;
      var got;
      got, ids, busy := sh.RefillBatch(c, MAG_CAP, batch);
      r := Fill(got);
      if r.Some? {
        assert [r.value] + Upcoming() == got;
      }
    }

    /** The magazine's own array is none of the sub-heap's. */
    ghost predicate Separate(sh: SubHeaps.SubHeap) {
      ptrs !in sh.bm.Arrays() && ptrs !in sh.pool.Repr() && ptrs != sh.table.entries && this !in sh.pool.Repr()
    }

    /** Store the batch, reverse it in place and take the first. */
    method Fill(got: seq<nat>) returns (r: Option<nat>)
      requires Valid() && len == 0 && |got| <= MAG_CAP
      modifies this`len, ptrs
      ensures Valid() && (r.None? <==> got == [])
      ensures r.Some? ==> r.value == got[0] && Contents() == Reversed(got[1..])
      ensures got == [] ==> Contents() == []
    {
      var i := 0;
      while i < |got|
        invariant i <= |got| && ptrs[..i] == got[..i]
      {
        ptrs[i] := got[i];
        i := i + 1;
      }
      assert ptrs[..|got|] == got;
      ReverseFirst(|got|);
      len := |got|;
      if len > 0 {
        len := len - 1;
        assert ptrs[..len + 1] == Reversed(got);
        assert ptrs[..len] == Reversed(got[1..]);
        return Some(ptrs[len]);
      }
      return None;
    }

    /** The magazine is full: the bottom 24, the longest cached, go back; the top 8 stay, in order, under `p`. */
    method DrainThenPush(p: nat) returns (flushed: seq<nat>)
      requires Valid() && len == MAG_CAP
      modifies this`len, ptrs
      ensures Valid() && flushed == old(Contents())[..MAG_CAP * 3 / 4]
      ensures Contents() == old(Contents())[MAG_CAP * 3 / 4..] + [p]
    {
      var drop := MAG_CAP * 3 / 4;
      flushed := ptrs[..drop];
      var i := 0;
      while i < len - drop
        invariant len == MAG_CAP && i <= len - drop
        invariant forall k | 0 <= k < i :: ptrs[k] == old(ptrs[drop + k])
        invariant forall k | i <= k < MAG_CAP :: ptrs[k] == old(ptrs[k])
      {
        ptrs[i] := ptrs[drop + i];
        i := i + 1;
      }
      len := len - drop;
      ptrs[len] := p;
      len := len + 1;
    }

    /** Free one pointer: what is not in the magazine afterwards has been flushed, and nothing is lost. */
    method Free(p: nat) returns (flushed: seq<nat>)
      requires Valid()
      modifies this`len, ptrs
      ensures Valid() && flushed + Contents() == old(Contents()) + [p]
      ensures |old(Contents())| < MAG_CAP ==> flushed == []
    {
      var ok := TryPush(p);
      flushed := [];
      if !ok {
        flushed := DrainThenPush(p);
      }
    }

    /** At thread exit everything goes back, top first. */
    method FlushAll() returns (flushed: seq<nat>)
      requires Valid()
      modifies this`len
      ensures Valid() && Contents() == [] && flushed == Reversed(old(Contents()))
    {
      flushed := [];
      ghost var xs := ptrs[..len];
      while len > 0
        invariant Valid() && len <= |xs| && ptrs[..len] == xs[..len] && flushed == Reversed(xs[len..])
        decreases len
      {
        assert xs[len - 1..] == [xs[len - 1]] + xs[len..];
        assert Reversed(xs[len - 1..]) == Reversed(xs[len..]) + [xs[len - 1]];
        len := len - 1;
        flushed := flushed + [ptrs[len]];
      }
      assert xs[0..] == xs;
    }
  }

  // --- the locked stack --------------------------------------------------------------

  /** A pop has turned `xs` into `ys` and returned `r`. */
  ghost predicate Popped(xs: seq<nat>, ys: seq<nat>, r: Option<nat>) {
    if xs == [] then r == None && ys == []
    else ys == xs[..|xs| - 1] && r == if xs[|xs| - 1] == NULL then None else Some(xs[|xs| - 1])
  }

  /** ... so it has taken that pointer, if any, and nothing else but null. */
  lemma PoppedOne(xs: seq<nat>, ys: seq<nat>, r: Option<nat>, theirs: multiset<nat>)
    requires Popped(xs, ys, r)
    ensures (multiset(ys) + theirs)[NULL := 0] + (if r.Some? then multiset{r.value} else multiset{}) == (multiset(xs) + theirs)[NULL := 0]
    ensures r != Some(NULL)
  {
    if xs != [] {
      assert xs == ys + [xs[|xs| - 1]];
    }
  }

  lemma PushedOne(xs: seq<nat>, p: nat, theirs: multiset<nat>)
    requires p != NULL
    ensures (multiset(xs + [p]) + theirs)[NULL := 0] == (multiset(xs) + theirs)[NULL := 0] + multiset{p}
  {
    assert multiset(xs + [p]) == multiset(xs) + multiset{p};
  }

  /** One CPU's stack of one class as the portable path uses it: the stop flag is read before the lock is taken,
      and other threads may do anything they do under the lock until it is ours. */
  class LockedStack {
    const slots: array<nat>
    var current: nat
    const capacity: nat
    var stopped: bool

    /** The pointers off the stack and in other threads' hands, and whether those threads are idle. */
    var theirs: multiset<nat>
    const alone: bool

    ghost predicate Valid()
      reads this
    {
      current <= capacity == slots.Length
    }

    ghost function Contents(): seq<nat>
      requires Valid()
      reads this, slots
    {
      slots[..current]
    }

    /** The pointers of the stack, whoever has them, null aside: but for our own, which the methods give and take. */
    ghost function All(): multiset<nat>
      requires Valid()
      reads this, slots
    {
      (multiset(Contents()) + theirs)[NULL := 0]
    }

    constructor (capacity: nat, theirs: multiset<nat>, alone: bool)
      ensures Valid() && fresh(slots) && Contents() == [] && !stopped && this.capacity == capacity
      ensures this.theirs == theirs && this.alone == alone
    {
      this.capacity, current, stopped, this.theirs, this.alone := capacity, 0, false, theirs, alone;
      slots := new nat[capacity];
    }

    /** The critical section of a pop. A null in a live slot comes off and reads as an empty stack. */
    method TakeTop() returns (r: Option<nat>)
      requires Valid()
      modifies this`current
      ensures Valid() && Popped(old(Contents()), Contents(), r)
    {
      if current == 0 {
        return None;
      }
      r := if slots[current - 1] == NULL then None else Some(slots[current - 1]);
      current := current - 1;
    }

    /** The critical section of a push. */
    method PutTop(p: nat) returns (ok: bool)
      requires Valid()
      modifies this`current, slots
      ensures Valid() && (ok <==> |old(Contents())| < capacity)
      ensures Contents() == if ok then old(Contents()) + [p] else old(Contents())
    {
      if current >= capacity {
        return false;
      }
      slots[current] := p;
      current := current + 1;
      return true;
    }

    /** Other threads pop, push and seize. */
    method Contend()
      requires Valid()
      modifies this`current, this`stopped, this`theirs, slots
      ensures Valid() && All() == old(All())
      ensures alone ==> Contents() == old(Contents()) && stopped == old(stopped) && theirs == old(theirs)
    {
      if alone {
        return;
      }
      var steps :| 0 <= steps;
      for k := 0 to steps
        invariant Valid() && All() == old(All())
      {
        OtherStep();
      }
    }

    /** One critical section of another thread, and perhaps a supervisor's change of the stop flag. */
    method OtherStep()
      requires Valid()
      modifies this`current, this`stopped, this`theirs, slots
      ensures Valid() && All() == old(All())
    {
      var p: nat, flag: bool := *, *;
      stopped := flag;
      ghost var xs := Contents();
      if p in theirs {
        var ok := PutTop(p);
        if ok {
          theirs := theirs - multiset{p};
          assert multiset(Contents()) == multiset(xs) + multiset{p};
        }
      } else {
        var r := TakeTop();
        PoppedOne(xs, Contents(), r, theirs);
        if r.Some? {
          theirs := theirs + multiset{r.value};
        }
      }
    }

    /** Pop the top of what is there when the lock is ours; none, and nothing touched, when the CPU was seen
        seized or the stack is empty then, and none when a null comes off. */
    method PopLocked() returns (r: Option<nat>, ghost seized: bool, ghost seen: seq<nat>)
      requires Valid()
      modifies this`current, this`stopped, this`theirs, slots
      ensures Valid() && (r.None? <==> seized || seen == [] || seen[|seen| - 1] == NULL)
      ensures if seized then r == None && Contents() == seen else Popped(seen, Contents(), r)
      ensures All() + (if r.Some? then multiset{r.value} else multiset{}) == old(All())
      ensures alone ==> seized == old(stopped) && seen == old(Contents()) && stopped == old(stopped) && theirs == old(theirs)
    {
      Contend();
      seized, seen := stopped, Contents();
      if stopped {
        return None, true, Contents();
      }
      Contend();
      seen := Contents();
      r := TakeTop();
      PoppedOne(seen, Contents(), r, theirs);
    }

    /** Push on top of what is there when the lock is ours; false, and nothing touched, when the CPU was seen
        seized or the stack is full then. */
    method PushLocked(p: nat) returns (ok: bool, ghost seized: bool, ghost seen: seq<nat>)
      requires Valid() && p != NULL
      modifies this`current, this`stopped, this`theirs, slots
      ensures Valid() && (ok <==> !seized && |seen| < capacity)
      ensures Contents() == if ok then seen + [p] else seen
      ensures All() == old(All()) + (if ok then multiset{p} else multiset{})
      ensures alone ==> seized == old(stopped) && seen == old(Contents()) && stopped == old(stopped) && theirs == old(theirs)
    {
      Contend();
      seized, seen := stopped, Contents();
      if stopped {
        return false, true, Contents();
      }
      Contend();
      seen := Contents();
      ok := PutTop(p);
      PushedOne(seen, p, theirs);
    }

    /** Take `min(count, current)` pointers off the top of a seized stack, and park them, top first, null aside. */
    method Rebalance(count: nat) returns (take: nat, parked: seq<nat>)
      requires Valid() && stopped
      modifies this`current
      ensures Valid() && take == (if count <= |old(Contents())| then count else |old(Contents())|)
      ensures Contents() == old(Contents())[..|old(Contents())| - take]
      ensures parked == TopDown(old(Contents()), |old(Contents())| - take)
    {
      hide TopDown;
      take := if count <= current then count else current;
      parked := [];
      ghost var xs := slots[..current];
      TopDownNone(xs);
      var k := 0;
      while k < take
        invariant k <= take && current == |xs| - k && slots[..|xs|] == xs && Valid()
        invariant parked == TopDown(xs, |xs| - k)
      {
        var obj := slots[current - 1];
        assert obj == xs[current - 1];
        TopDownMore(xs, current - 1);
        current := current - 1;
        if obj != NULL {
          parked := parked + [obj];
        }
        k := k + 1;
      }
    }
  }

  ghost function NotNull(xs: seq<nat>): seq<nat> {
    if xs == [] then []
    else NotNull(xs[..|xs| - 1]) + if xs[|xs| - 1] == NULL then [] else [xs[|xs| - 1]]
  }

  /** The pointers from index `i` up, from the top down. */
  ghost function TopDown(xs: seq<nat>, i: nat): seq<nat>
    requires i <= |xs|
  {
    NotNull(Reversed(xs[i..]))
  }

  lemma TopDownNone(xs: seq<nat>)
    ensures TopDown(xs, |xs|) == []
  {
  }

  lemma TopDownMore(xs: seq<nat>, i: nat)
    requires i < |xs|
    ensures TopDown(xs, i) == TopDown(xs, i + 1) + if xs[i] == NULL then [] else [xs[i]]
  {
    var r := Reversed(xs[i + 1..]);
    assert Reversed(xs[i..]) == r + [xs[i]];
    assert (r + [xs[i]])[..|r|] == r;
  }

  // --- batched free ------------------------------------------------------------------

  /** The pointers of `ps` homed on this shard, in order: they go to the local stack. */
  ghost function LocalOnes(ps: seq<nat>, homes: seq<nat>, shards: nat, my: nat): seq<nat>
    requires |homes| == |ps| && shards > 0
  {
    if ps == [] then []
    else LocalOnes(ps[..|ps| - 1], homes[..|ps| - 1], shards, my) +
         if IsLocal(homes[|ps| - 1], shards, my) then [ps[|ps| - 1]] else []
  }

  ghost predicate IsLocal(home: nat, shards: nat, my: nat)
    requires shards > 0
  {
    home == 65535 || home % shards == my
  }

  /** The slots of the others, in order. */
  ghost function RemoteSlots(gs: seq<nat>, homes: seq<nat>, shards: nat, my: nat): seq<nat>
    requires |homes| == |gs| && shards > 0
  {
    if gs == [] then []
    else RemoteSlots(gs[..|gs| - 1], homes[..|gs| - 1], shards, my) +
         if IsLocal(homes[|gs| - 1], shards, my) then [] else [gs[|gs| - 1]]
  }

  /** `pending` are the slots of the bits `mask` of word `i`. */
  ghost predicate Pending(pending: set<nat>, i: nat, mask: Word) {
    forall g: nat {:trigger g in pending} :: g in pending <==> g / BITS == i && g % BITS in mask
  }

  /** From `k0` to `k1` exactly the slots `gone` are no longer set. */
  ghost predicate Lost(k0: seq<Word>, k1: seq<Word>, gone: set<nat>) {
    && |k0| == |k1|
    && forall g: nat {:trigger SlotSet(k1, g)} | g / BITS < |k0| :: SlotSet(k1, g) <==> SlotSet(k0, g) && g !in gone
  }

  ghost predicate SlotSet(k: seq<Word>, g: nat) {
    g / BITS < |k| && g % BITS in k[g / BITS]
  }

  lemma LostMore(k0: seq<Word>, k1: seq<Word>, k2: seq<Word>, gone: set<nat>, pending: set<nat>, i: nat, mask: Word)
    requires Lost(k0, k1, gone) && Pending(pending, i, mask) && i < |k1| && k2 == k1[i := k1[i] - mask]
    ensures Lost(k0, k2, gone + pending)
  {
    forall g: nat | g / BITS < |k0| ensures SlotSet(k2, g) <==> SlotSet(k0, g) && g !in gone + pending {
      assert SlotSet(k1, g) <==> SlotSet(k0, g) && g !in gone;
    }
  }

  /** The slots `gone` are no longer out; with nobody else at work nothing else has come back. */
  ghost predicate GivenBack(h0: seq<Word>, h1: seq<Word>, quiet: bool, gone: set<nat>) {
    (forall g | g in gone :: !SlotSet(h1, g)) && (quiet ==> Lost(h0, h1, gone))
  }

  lemma GivenBackMore(h0: seq<Word>, h1: seq<Word>, h2: seq<Word>, quiet: bool, gone: set<nat>, pending: set<nat>, i: nat, mask: Word)
    requires GivenBack(h0, h1, quiet, gone) && Pending(pending, i, mask) && i < |h1| && h2 == h1[i := h1[i] - mask]
    ensures GivenBack(h0, h2, quiet, gone + pending)
  {
    hide Lost;
    if quiet { LostMore(h0, h1, h2, gone, pending, i, mask); }
    forall g | g in gone + pending ensures !SlotSet(h2, g) {
      assert g in pending <==> g / BITS == i && g % BITS in mask;
    }
  }

  lemma StillBack(h0: seq<Word>, h1: seq<Word>, h2: seq<Word>, quiet: bool, gone: set<nat>)
    requires GivenBack(h0, h1, quiet, gone) && Returned(h1, h2) && (quiet ==> h2 == h1)
    ensures GivenBack(h0, h2, quiet, gone)
  {
    hide Lost;
    forall g | g in gone ensures !SlotSet(h2, g) {
      assert !SlotSet(h1, g);
    }
  }

  /** Deposit the pending mask of one word, if there is one. */
  method FlushPending(bm: SpanBitmaps, span: nat, word: nat, mask: Word, ghost pending: set<nat>, ghost gone: set<nat>,
                      ghost k0: seq<Word>, ghost h0: seq<Word>)
    requires bm.Valid() && Pending(pending, WordIndex(span, word), mask) && Lost(k0, bm.kept, gone)
    requires GivenBack(h0, bm.held, bm.quiet, gone)
    requires mask != {} ==> span < bm.numSpans && word < WORDS_PER_SPAN && mask <= bm.kept[WordIndex(span, word)]
    modifies bm`held, bm`kept, bm.freeWords
    ensures bm.Valid() && Lost(k0, bm.kept, gone + pending)
    ensures mask != {} ==> mask <= bm.freeWords[WordIndex(span, word)]
    ensures GivenBack(h0, bm.held, bm.quiet, gone + pending)
  {
    if mask == {} {
      assert pending == {} && gone + pending == gone;
      return;
    }
    var i := WordIndex(span, word);
    bm.Interfere();
    ghost var h1, k1 := bm.held, bm.kept;
    bm.WordAt(i);
    bm.Unkeep(i, mask);
    bm.SetMask(span, word, mask);
    LostMore(k0, k1, bm.kept, gone, pending, i, mask);
    StillBack(h0, old(bm.held), h1, bm.quiet, gone);
    GivenBackMore(h0, h1, bm.held, bm.quiet, gone, pending, i, mask);
  }

  /** The pointers of a batch, and the slots they are of: each held by the caller, and no two the same. */
  ghost predicate Batch(bm: SpanBitmaps, base: nat, osz: nat, ps: seq<nat>, gs: seq<nat>)
    requires osz > 0
    reads bm
  {
    && |gs| == |ps| && SpanPools.Distinct(gs)
    && forall j {:trigger gs[j]} | 0 <= j < |ps| ::
         && ps[j] == Central.AddressOf(base, osz, gs[j]) && gs[j] % Central.SPAN_SLOTS < SlotsPerSpan(osz)
         && gs[j] / Central.SPAN_SLOTS < bm.numSpans && SlotSet(bm.kept, gs[j])
  }

  ghost function Homes(table: SpanTables.SpanTable, ps: seq<nat>): (r: seq<nat>)
    reads table.entries
    ensures |r| == |ps| && forall j | 0 <= j < |ps| :: r[j] == table.HomeRelaxed(ps[j])
  {
    if ps == [] then [] else Homes(table, ps[..|ps| - 1]) + [table.HomeRelaxed(ps[|ps| - 1])]
  }

  /** Where a batched free stands after `j` pointers: `gone` is deposited, `pending` is in the mask, and together
      they are the remote slots so far. */
  ghost predicate BatchState(gs: seq<nat>, homes: seq<nat>, shards: nat, my: nat, j: nat, gone: set<nat>, pending: set<nat>,
                             i: nat, mask: Word, k0: seq<Word>, k1: seq<Word>)
    requires j <= |gs| == |homes| && shards > 0
  {
    && Pending(pending, i, mask) && Lost(k0, k1, gone) && gone !! pending
    && gone + pending == Central.Members(RemoteSlots(gs[..j], homes[..j], shards, my))
  }

  lemma {:induction false} RemoteSlotsIn(gs: seq<nat>, homes: seq<nat>, shards: nat, my: nat)
    requires |homes| == |gs| && shards > 0
    ensures forall g | g in RemoteSlots(gs, homes, shards, my) :: g in gs
  {
    if gs != [] { RemoteSlotsIn(gs[..|gs| - 1], homes[..|gs| - 1], shards, my); }
  }

  /** One more remote slot, going into the mask of its word. */
  lemma BatchMore(gs: seq<nat>, homes: seq<nat>, shards: nat, my: nat, j: nat, gone: set<nat>, pending: set<nat>,
                  i: nat, mask: Word, k0: seq<Word>, k1: seq<Word>)
    requires j < |gs| == |homes| && shards > 0 && BatchState(gs, homes, shards, my, j, gone, pending, i, mask, k0, k1)
    requires SpanPools.Distinct(gs)
    ensures IsLocal(homes[j], shards, my) ==> BatchState(gs, homes, shards, my, j + 1, gone, pending, i, mask, k0, k1)
    ensures !IsLocal(homes[j], shards, my) && i == gs[j] / BITS ==>
              BatchState(gs, homes, shards, my, j + 1, gone, pending + {gs[j]}, i, mask + {gs[j] % BITS}, k0, k1)
  {
    assert gs[..j + 1][..j] == gs[..j] && homes[..j + 1][..j] == homes[..j];
    RemoteSlotsIn(gs[..j], homes[..j], shards, my);
    assert gs[j] !in gs[..j];
    var r := RemoteSlots(gs[..j], homes[..j], shards, my);
    assert Central.Members(r + [gs[j]]) == Central.Members(r) + {gs[j]};
    if !IsLocal(homes[j], shards, my) && i == gs[j] / BITS {
      forall g: nat ensures g in pending + {gs[j]} <==> g / BITS == i && g % BITS in mask + {gs[j] % BITS} {
        assert g / BITS == i && g % BITS == gs[j] % BITS ==> g == gs[j];
        assert g in pending <==> g / BITS == i && g % BITS in mask;
      }
    }
  }

  /** The slots in the mask are still the caller's. */
  lemma PendingHeld(gs: seq<nat>, homes: seq<nat>, shards: nat, my: nat, j: nat, gone: set<nat>, pending: set<nat>,
                    i: nat, mask: Word, k0: seq<Word>, k1: seq<Word>)
    requires j <= |gs| == |homes| && shards > 0 && BatchState(gs, homes, shards, my, j, gone, pending, i, mask, k0, k1)
    requires forall x | 0 <= x < |gs| :: SlotSet(k0, gs[x])
    ensures mask != {} ==> i < |k1| && mask <= k1[i]
  {
    RemoteSlotsIn(gs[..j], homes[..j], shards, my);
    forall b | b in mask ensures i < |k1| && b in k1[i] {
      var g := i * BITS + b;
      assert g / BITS == i && g % BITS == b && g in pending;
      assert g in Central.Members(RemoteSlots(gs[..j], homes[..j], shards, my));
      assert g in gs[..j];
      assert SlotSet(k0, g) && SlotSet(k1, g);
    }
  }

  /** Free one pointer homed elsewhere. */
  method FreeRemote(bm: SpanBitmaps, base: nat, osz: nat, p: nat, curSpan: nat, curWord: nat, curMask: Word,
                    ghost gs: seq<nat>, ghost homes: seq<nat>, ghost shards: nat, ghost my: nat, ghost j: nat,
                    ghost gone0: set<nat>, ghost pending0: set<nat>, ghost k0: seq<Word>, ghost h0: seq<Word>)
    returns (span: nat, word: nat, mask: Word, ghost gone: set<nat>, ghost pending: set<nat>)
    requires bm.Valid() && osz > 0 && j < |gs| == |homes| && shards > 0 && SpanPools.Distinct(gs) && !IsLocal(homes[j], shards, my)
    requires p == Central.AddressOf(base, osz, gs[j]) && gs[j] % Central.SPAN_SLOTS < SlotsPerSpan(osz)
    requires gs[j] / Central.SPAN_SLOTS < bm.numSpans && forall x | 0 <= x < |gs| :: SlotSet(k0, gs[x])
    requires BatchState(gs, homes, shards, my, j, gone0, pending0, WordIndex(curSpan, curWord), curMask, k0, bm.kept)
    requires GivenBack(h0, bm.held, bm.quiet, gone0)
    requires curMask != {} ==> curSpan < bm.numSpans && curWord < WORDS_PER_SPAN
    modifies bm`held, bm`kept, bm.freeWords
    ensures bm.Valid() && GivenBack(h0, bm.held, bm.quiet, gone)
    ensures BatchState(gs, homes, shards, my, j + 1, gone, pending, WordIndex(span, word), mask, k0, bm.kept)
    ensures span == gs[j] / Central.SPAN_SLOTS < bm.numSpans && word < WORDS_PER_SPAN
  {
    hide Lost, Pending, GivenBack, WordsOk, BatchState, Locate, Central.AddressOf, SlotSet;
    LocateSlot(base, osz, gs[j]);
    var at := Locate(base, p, osz);
    span, word := at.0, at.1;
    mask, gone, pending := Coalesce(bm, curSpan, curWord, curMask, span, word, at.2, gs, homes, shards, my, j, gone0, pending0, k0, h0);
  }

  /** After the last pointer, deposit what is pending. */
  method FlushLast(bm: SpanBitmaps, span: nat, word: nat, mask: Word, ghost gs: seq<nat>, ghost homes: seq<nat>, ghost shards: nat,
                   ghost my: nat, ghost gone: set<nat>, ghost pending: set<nat>, ghost k0: seq<Word>, ghost h0: seq<Word>)
    requires bm.Valid() && |gs| == |homes| && shards > 0 && forall x | 0 <= x < |gs| :: SlotSet(k0, gs[x])
    requires BatchState(gs, homes, shards, my, |gs|, gone, pending, WordIndex(span, word), mask, k0, bm.kept)
    requires GivenBack(h0, bm.held, bm.quiet, gone)
    requires mask != {} ==> span < bm.numSpans && word < WORDS_PER_SPAN
    modifies bm`held, bm`kept, bm.freeWords
    ensures bm.Valid() && Lost(k0, bm.kept, Central.Members(RemoteSlots(gs, homes, shards, my)))
    ensures GivenBack(h0, bm.held, bm.quiet, Central.Members(RemoteSlots(gs, homes, shards, my)))
  {
    PendingHeld(gs, homes, shards, my, |gs|, gone, pending, WordIndex(span, word), mask, k0, bm.kept);
    BatchEnd(gs, homes, shards, my, gone, pending, WordIndex(span, word), mask, k0, bm.kept);
    FlushPending(bm, span, word, mask, pending, gone, k0, h0);
  }

  lemma BatchEnd(gs: seq<nat>, homes: seq<nat>, shards: nat, my: nat, gone: set<nat>, pending: set<nat>,
                 i: nat, mask: Word, k0: seq<Word>, k1: seq<Word>)
    requires |gs| == |homes| && shards > 0 && BatchState(gs, homes, shards, my, |gs|, gone, pending, i, mask, k0, k1)
    ensures gone + pending == Central.Members(RemoteSlots(gs, homes, shards, my))
  {
    assert gs[..|gs|] == gs && homes[..|gs|] == homes;
  }

  lemma BatchStart(gs: seq<nat>, homes: seq<nat>, shards: nat, my: nat, i: nat, k0: seq<Word>, h0: seq<Word>)
    requires |gs| == |homes| && shards > 0
    ensures BatchState(gs, homes, shards, my, 0, {}, {}, i, {}, k0, k0) && forall quiet :: GivenBack(h0, h0, quiet, {})
  {
  }

  /** Add the bit of slot `gs[j]` to the pending mask, after flushing it if it is of another word. */
  method Coalesce(bm: SpanBitmaps, curSpan: nat, curWord: nat, curMask: Word, span: nat, word: nat, bit: nat,
                  ghost gs: seq<nat>, ghost homes: seq<nat>, ghost shards: nat, ghost my: nat, ghost j: nat,
                  ghost gone0: set<nat>, ghost pending0: set<nat>, ghost k0: seq<Word>, ghost h0: seq<Word>)
    returns (mask: Word, ghost gone: set<nat>, ghost pending: set<nat>)
    requires bm.Valid() && j < |gs| == |homes| && shards > 0 && SpanPools.Distinct(gs) && !IsLocal(homes[j], shards, my)
    requires forall x | 0 <= x < |gs| :: SlotSet(k0, gs[x])
    requires BatchState(gs, homes, shards, my, j, gone0, pending0, WordIndex(curSpan, curWord), curMask, k0, bm.kept)
    requires GivenBack(h0, bm.held, bm.quiet, gone0)
    requires curMask != {} ==> curSpan < bm.numSpans && curWord < WORDS_PER_SPAN
    requires bit == gs[j] % BITS && WordIndex(span, word) == gs[j] / BITS
    modifies bm`held, bm`kept, bm.freeWords
    ensures bm.Valid() && GivenBack(h0, bm.held, bm.quiet, gone)
    ensures BatchState(gs, homes, shards, my, j + 1, gone, pending, WordIndex(span, word), mask, k0, bm.kept)
  {
    mask, gone, pending := curMask, gone0, pending0;
    if span != curSpan || word != curWord {
      PendingHeld(gs, homes, shards, my, j, gone, pending, WordIndex(curSpan, curWord), curMask, k0, bm.kept);
      FlushPending(bm, curSpan, curWord, curMask, pending, gone, k0, h0);
      gone, pending, mask := gone + pending, {}, {};
    }
    BatchMore(gs, homes, shards, my, j, gone, pending, WordIndex(span, word), mask, k0, bm.kept);
    mask := mask + {bit};
    pending := pending + {gs[j]};
  }

  /** The span of the last slot, or none. */
  function LastSpan(ids: seq<nat>): nat {
    if ids == [] then NO_SPAN else ids[|ids| - 1] / Central.SPAN_SLOTS
  }

  lemma LocateSlot(base: nat, osz: nat, g: nat)
    requires osz > 0 && g % Central.SPAN_SLOTS < SlotsPerSpan(osz)
    ensures Central.AddressOf(base, osz, g) >= base
    ensures var (span, word, bit) := Locate(base, Central.AddressOf(base, osz, g), osz);
            && span == g / Central.SPAN_SLOTS && word < WORDS_PER_SPAN && bit == g % BITS && WordIndex(span, word) == g / BITS
  {
    LocateInverts(base, g / Central.SPAN_SLOTS, g % Central.SPAN_SLOTS, osz);
  }

  /** The loop over the pointers of a batch. */
  method FreeEach(bm: SpanBitmaps, table: SpanTables.SpanTable, osz: nat, ps: seq<nat>, shards: nat, my: nat, ghost gs: seq<nat>)
    returns (local: seq<nat>, hint: nat)
    requires bm.Valid() && osz > 0 && shards > 0 && table.entries !in bm.Arrays() && Batch(bm, table.base, osz, ps, gs)
    modifies bm`held, bm`kept, bm.freeWords
    ensures bm.Valid() && local == LocalOnes(ps, Homes(table, ps), shards, my)
    ensures Lost(old(bm.kept), bm.kept, Central.Members(RemoteSlots(gs, Homes(table, ps), shards, my)))
    ensures GivenBack(old(bm.held), bm.held, bm.quiet, Central.Members(RemoteSlots(gs, Homes(table, ps), shards, my)))
    ensures hint == LastSpan(RemoteSlots(gs, Homes(table, ps), shards, my))
  {
    hide Lost, Pending, GivenBack, WordsOk, BatchState, Locate, Central.AddressOf, SlotSet, SpanTables.SpanTable.HomeRelaxed, SpanBitmaps.Valid;
    ghost var k0, h0, homes := bm.kept, bm.held, Homes(table, ps);
    ghost var gone: set<nat>, pending: set<nat> := {}, {};
    var curSpan: nat, curWord: nat, curMask: Word := NO_SPAN, 0, {};
    local := [];
    var j := 0;
    BatchStart(gs, homes, shards, my, WordIndex(curSpan, curWord), k0, h0);
    while j < |ps|
      invariant j <= |ps| && bm.Valid()
      invariant BatchState(gs, homes, shards, my, j, gone, pending, WordIndex(curSpan, curWord), curMask, k0, bm.kept)
      invariant local == LocalOnes(ps[..j], homes[..j], shards, my)
      invariant GivenBack(h0, bm.held, bm.quiet, gone)
      invariant curMask != {} ==> curSpan < bm.numSpans && curWord < WORDS_PER_SPAN
      invariant curSpan == LastSpan(RemoteSlots(gs[..j], homes[..j], shards, my))
    {
      assert ps[..j + 1][..j] == ps[..j] && homes[..j + 1][..j] == homes[..j] && gs[..j + 1][..j] == gs[..j];
      var home := table.HomeRelaxed(ps[j]);
      if home == 65535 || home % shards == my {
        local := local + [ps[j]];
        BatchMore(gs, homes, shards, my, j, gone, pending, WordIndex(curSpan, curWord), curMask, k0, bm.kept);
      } else {
        curSpan, curWord, curMask, gone, pending :=
          FreeRemote(bm, table.base, osz, ps[j], curSpan, curWord, curMask, gs, homes, shards, my, j, gone, pending, k0, h0);
      }
      j := j + 1;
    }
    assert ps[..j] == ps && homes[..j] == homes && gs[..j] == gs;
    FlushLast(bm, curSpan, curWord, curMask, gs, homes, shards, my, gone, pending, k0, h0);
    hint := curSpan;
  }

  /** What goes where, pointer by pointer. */
  lemma Routing(bm: SpanBitmaps, table: SpanTables.SpanTable, ps: seq<nat>, gs: seq<nat>, shards: nat, my: nat, k0: seq<Word>, h0: seq<Word>)
    requires shards > 0 && |gs| == |ps| && SpanPools.Distinct(gs) && forall j | 0 <= j < |ps| :: SlotSet(k0, gs[j])
    requires var remote := Central.Members(RemoteSlots(gs, Homes(table, ps), shards, my));
             Lost(k0, bm.kept, remote) && GivenBack(h0, bm.held, bm.quiet, remote)
    ensures forall j | 0 <= j < |ps| ::
              if IsLocal(table.HomeRelaxed(ps[j]), shards, my)
              then ps[j] in LocalOnes(ps, Homes(table, ps), shards, my) && SlotSet(bm.kept, gs[j])
              else ps[j] !in LocalOnes(ps, Homes(table, ps), shards, my) && !SlotSet(bm.kept, gs[j]) && !SlotSet(bm.held, gs[j])
    ensures var hint := LastSpan(RemoteSlots(gs, Homes(table, ps), shards, my));
            && ((forall j | 0 <= j < |ps| :: IsLocal(table.HomeRelaxed(ps[j]), shards, my)) ==> hint == NO_SPAN)
            && forall j | 0 <= j < |ps| && !IsLocal(table.HomeRelaxed(ps[j]), shards, my) ::
                 (forall i | j < i < |ps| :: IsLocal(table.HomeRelaxed(ps[i]), shards, my)) ==> hint == gs[j] / Central.SPAN_SLOTS
  {
    hide IsLocal, Lost, GivenBack, SlotSet;
    var homes := Homes(table, ps);
    forall j | 0 <= j < |ps|
      ensures if IsLocal(homes[j], shards, my) then ps[j] in LocalOnes(ps, homes, shards, my) && SlotSet(bm.kept, gs[j])
              else ps[j] !in LocalOnes(ps, homes, shards, my) && !SlotSet(bm.kept, gs[j]) && !SlotSet(bm.held, gs[j])
    {
      LocalOnesAre(ps, homes, shards, my, j);
      RemoteSlotsAre(gs, homes, shards, my, j);
      SlotGone(k0, bm.kept, h0, bm.held, bm.quiet, Central.Members(RemoteSlots(gs, homes, shards, my)), gs[j]);
    }
    forall j | 0 <= j < |ps| && !IsLocal(homes[j], shards, my) && forall i | j < i < |ps| :: IsLocal(homes[i], shards, my)
      ensures LastSpan(RemoteSlots(gs, homes, shards, my)) == gs[j] / Central.SPAN_SLOTS
    {
      LastRemote(gs, homes, shards, my, j);
    }
    if forall j | 0 <= j < |ps| :: IsLocal(homes[j], shards, my) { NoneRemote(gs, homes, shards, my); }
  }

  lemma SlotGone(k0: seq<Word>, k1: seq<Word>, h0: seq<Word>, h1: seq<Word>, quiet: bool, gone: set<nat>, g: nat)
    requires Lost(k0, k1, gone) && GivenBack(h0, h1, quiet, gone) && SlotSet(k0, g)
    ensures SlotSet(k1, g) <==> g !in gone
    ensures g in gone ==> !SlotSet(h1, g)
  {
    assert SlotSet(k1, g) <==> SlotSet(k0, g) && g !in gone;
  }

  /** Pointers with the same home are routed alike: a pointer goes to the local stack exactly if it is homed here. */
  lemma {:induction false} LocalOnesAre(ps: seq<nat>, homes: seq<nat>, shards: nat, my: nat, j: nat)
    requires |homes| == |ps| && shards > 0 && j < |ps| && forall i, k | 0 <= i < k < |ps| && ps[i] == ps[k] :: homes[i] == homes[k]
    ensures ps[j] in LocalOnes(ps, homes, shards, my) <==> IsLocal(homes[j], shards, my)
  {
    if IsLocal(homes[j], shards, my) {
      LocalOnesAll(ps, homes, shards, my, j);
    } else {
      LocalOnesOnly(ps, homes, shards, my, ps[j], homes[j]);
    }
  }

  lemma {:induction false} LocalOnesOnly(ps: seq<nat>, homes: seq<nat>, shards: nat, my: nat, p: nat, home: nat)
    requires |homes| == |ps| && shards > 0 && (forall i | 0 <= i < |ps| && ps[i] == p :: homes[i] == home) && !IsLocal(home, shards, my)
    ensures p !in LocalOnes(ps, homes, shards, my)
  {
    if ps != [] { LocalOnesOnly(ps[..|ps| - 1], homes[..|ps| - 1], shards, my, p, home); }
  }

  lemma {:induction false} LocalOnesAll(ps: seq<nat>, homes: seq<nat>, shards: nat, my: nat, j: nat)
    requires |homes| == |ps| && shards > 0 && j < |ps| && IsLocal(homes[j], shards, my)
    ensures ps[j] in LocalOnes(ps, homes, shards, my)
  {
    if j < |ps| - 1 { LocalOnesAll(ps[..|ps| - 1], homes[..|ps| - 1], shards, my, j); }
  }

  lemma {:induction false} RemoteSlotsAre(gs: seq<nat>, homes: seq<nat>, shards: nat, my: nat, j: nat)
    requires |homes| == |gs| && shards > 0 && j < |gs| && SpanPools.Distinct(gs)
    ensures gs[j] in RemoteSlots(gs, homes, shards, my) <==> !IsLocal(homes[j], shards, my)
  {
    var n := |gs| - 1;
    if j < n {
      RemoteSlotsAre(gs[..n], homes[..n], shards, my, j);
    } else {
      RemoteSlotsIn(gs[..n], homes[..n], shards, my);
    }
  }

  lemma {:induction false} LastRemote(gs: seq<nat>, homes: seq<nat>, shards: nat, my: nat, j: nat)
    requires |homes| == |gs| && shards > 0 && j < |gs| && !IsLocal(homes[j], shards, my)
    requires forall i | j < i < |gs| :: IsLocal(homes[i], shards, my)
    ensures LastSpan(RemoteSlots(gs, homes, shards, my)) == gs[j] / Central.SPAN_SLOTS
  {
    if j < |gs| - 1 { LastRemote(gs[..|gs| - 1], homes[..|gs| - 1], shards, my, j); }
  }

  lemma {:induction false} NoneRemote(gs: seq<nat>, homes: seq<nat>, shards: nat, my: nat)
    requires |homes| == |gs| && shards > 0 && forall i | 0 <= i < |gs| :: IsLocal(homes[i], shards, my)
    ensures RemoteSlots(gs, homes, shards, my) == []
  {
    if gs != [] { NoneRemote(gs[..|gs| - 1], homes[..|gs| - 1], shards, my); }
  }

  /** Free a batch: pointers homed on this shard go to the local stack, in order; of every other exactly its own
      slot is deposited, one word's worth at a time. The last span deposited into is the hint to publish. */
  method FreeBatch(bm: SpanBitmaps, table: SpanTables.SpanTable, osz: nat, ps: seq<nat>, shards: nat, my: nat, ghost gs: seq<nat>)
    returns (local: seq<nat>, hint: nat)
    requires bm.Valid() && osz > 0 && shards > 0 && table.entries !in bm.Arrays() && Batch(bm, table.base, osz, ps, gs)
    modifies bm`held, bm`kept, bm.freeWords
    ensures bm.Valid() && local == LocalOnes(ps, Homes(table, ps), shards, my)
    ensures Lost(old(bm.kept), bm.kept, Central.Members(RemoteSlots(gs, Homes(table, ps), shards, my)))
    ensures GivenBack(old(bm.held), bm.held, bm.quiet, Central.Members(RemoteSlots(gs, Homes(table, ps), shards, my)))
    ensures hint == LastSpan(RemoteSlots(gs, Homes(table, ps), shards, my))
    ensures forall j | 0 <= j < |ps| ::
              var home := table.HomeRelaxed(ps[j]);
              if home == 65535 || home % shards == my then ps[j] in local && SlotSet(bm.kept, gs[j])
              else ps[j] !in local && !SlotSet(bm.kept, gs[j]) && !SlotSet(bm.held, gs[j])
    ensures (forall j | 0 <= j < |ps| :: table.HomeRelaxed(ps[j]) == 65535 || table.HomeRelaxed(ps[j]) % shards == my) ==> hint == NO_SPAN
    ensures forall j | 0 <= j < |ps| && table.HomeRelaxed(ps[j]) != 65535 && table.HomeRelaxed(ps[j]) % shards != my ::
              (forall i | j < i < |ps| :: table.HomeRelaxed(ps[i]) == 65535 || table.HomeRelaxed(ps[i]) % shards == my) ==>
                hint == gs[j] / Central.SPAN_SLOTS
  {
    hide Lost, GivenBack, WordsOk, SlotSet, Central.AddressOf;
    ghost var k0, h0 := bm.kept, bm.held;
    local, hint := FreeEach(bm, table, osz, ps, shards, my, gs);
    Routing(bm, table, ps, gs, shards, my, k0, h0);
  }
}
