/** The frame pool: fixed-size frames with a reference count each, and threads' caches of free ones. */
module Frames {
  // Frames move between a central stack, per-CPU stacks, a thread's cache and the application. The per-CPU
  // stacks are the atomic ones that the restartable sequences implement.

  import opened Words
  import SpanPools

  const BATCH: nat := 32
  const CAP_PER_CPU: nat := 256
  const FRAME_MAG_CAP: nat := 32

  /** Where a frame is. A thread holds one in its hands between taking it from one place and putting it
      in another; a live one is referenced by the application. */
  datatype Place = Central | Slab(cpu: nat) | Cache(t: nat) | Hand(t: nat) | Live

  /** `xs` are exactly the frames at `p`, each once. */
  ghost predicate Holds(xs: seq<nat>, place: seq<Place>, p: Place) {
    SpanPools.Distinct(xs) && forall x: nat {:trigger x in xs} :: x in xs <==> x < |place| && place[x] == p
  }

  lemma HoldsPop(xs: seq<nat>, place: seq<Place>, p: Place, q: Place)
    requires Holds(xs, place, p) && xs != [] && p != q
    ensures var x := xs[|xs| - 1]; x < |place| && Holds(xs[..|xs| - 1], place[x := q], p)
  {
    var x, ys := xs[|xs| - 1], xs[..|xs| - 1];
    assert x in xs && xs == ys + [x] && x !in ys;
    forall y: nat ensures y in ys <==> y < |place| && place[x := q][y] == p {
      assert y in xs <==> y in ys || y == x;
    }
  }

  lemma HoldsPush(xs: seq<nat>, place: seq<Place>, x: nat, q: Place)
    requires Holds(xs, place, q) && x < |place| && place[x] != q
    ensures Holds(xs + [x], place[x := q], q) && x !in xs
  {
    assert x !in xs;
    assert forall i | 0 <= i < |xs| :: xs[i] in xs;
    forall y: nat ensures y in xs + [x] <==> y < |place| && place[x := q][y] == q {
      assert y in xs <==> y < |place| && place[y] == q;
    }
  }

  lemma HoldsElsewhere(xs: seq<nat>, place: seq<Place>, x: nat, q: Place, r: Place)
    requires Holds(xs, place, r) && x < |place| && place[x] != r && q != r
    ensures Holds(xs, place[x := q], r)
  {
    forall y: nat ensures y in xs <==> y < |place| && place[x := q][y] == r {
      assert y in xs <==> y < |place| && place[y] == r;
    }
  }

  /** Distinct frames are no more than there are frames. */
  lemma {:induction false} Pigeonhole(xs: seq<nat>, n: nat)
    requires SpanPools.Distinct(xs) && forall x | x in xs :: x < n
    ensures |xs| <= n
    decreases n
  {
    if xs == [] {
      return;
    }
    assert xs[0] in xs;
    if n - 1 in xs {
      var i :| 0 <= i < |xs| && xs[i] == n - 1;
      var ys := SpanPools.Without(xs, i);
      forall y | y in ys ensures y < n - 1 {
        var j :| 0 <= j < |ys| && ys[j] == y;
        assert xs[if j < i then j else j + 1] == y && y in xs;
      }
      Pigeonhole(ys, n - 1);
    } else {
      Pigeonhole(xs, n - 1);
    }
  }

  predicate Mine(t: nat, p: Place) {
    p == Hand(t) || p == Cache(t)
  }

  /** What thread `t` has in its hands and its cache is as it was. */
  ghost predicate Same(t: nat, p0: seq<Place>, p1: seq<Place>) {
    |p0| == |p1| && forall i: nat {:trigger p1[i]} | i < |p0| && (Mine(t, p0[i]) || Mine(t, p1[i])) :: p1[i] == p0[i]
  }

  /** ... except frame `x`. */
  ghost predicate SameBut(t: nat, p0: seq<Place>, p1: seq<Place>, x: nat) {
    |p0| == |p1| && forall i: nat {:trigger p1[i]} | i < |p0| && i != x && (Mine(t, p0[i]) || Mine(t, p1[i])) :: p1[i] == p0[i]
  }

  /** Thread `t` has gained frame `x`, now in its hands. */
  ghost predicate Gained(t: nat, p0: seq<Place>, p1: seq<Place>, x: nat) {
    SameBut(t, p0, p1, x) && x < |p0| && !Mine(t, p0[x]) && p1[x] == Hand(t)
  }

  /** Thread `t` has let go of frame `x` it had in its hands. */
  ghost predicate LetGo(t: nat, p0: seq<Place>, p1: seq<Place>, x: nat) {
    SameBut(t, p0, p1, x) && x < |p0| && p0[x] == Hand(t) && !Mine(t, p1[x])
  }

  /** No two stacks and no stack and cache share a frame: the stacks are what `place` says. */
  ghost predicate StacksOk(central: seq<nat>, slabs: seq<seq<nat>>, place: seq<Place>) {
    && Holds(central, place, Central)
    && forall c: nat {:trigger SlabOk(slabs, place, c)} :: SlabOk(slabs, place, c)
  }

  ghost predicate SlabOk(slabs: seq<seq<nat>>, place: seq<Place>, c: nat) {
    if c < |slabs| then |slabs[c]| <= CAP_PER_CPU && Holds(slabs[c], place, Slab(c))
    else forall x: nat | x < |place| :: place[x] != Slab(c)
  }

  ghost predicate RefsOk(refs: seq<nat>, place: seq<Place>) {
    |refs| == |place| && forall x: nat {:trigger place[x]} | x < |place| :: place[x] == Live <==> refs[x] >= 1
  }

  /** Moving a frame that is on no stack to another such place. */
  lemma StacksKept(central: seq<nat>, slabs: seq<seq<nat>>, place: seq<Place>, x: nat, q: Place)
    requires StacksOk(central, slabs, place) && x < |place|
    requires place[x] != Central && !place[x].Slab? && q != Central && !q.Slab?
    ensures StacksOk(central, slabs, place[x := q])
  {
    var place2 := place[x := q];
    HoldsElsewhere(central, place, x, q, Central);
    forall c: nat ensures SlabOk(slabs, place2, c) {
      assert SlabOk(slabs, place, c);
      if c < |slabs| { HoldsElsewhere(slabs[c], place, x, q, Slab(c)); }
    }
  }

  /** The central stack and a frame in hand. */
  lemma CentralMoved(central: seq<nat>, central2: seq<nat>, slabs: seq<seq<nat>>, place: seq<Place>, x: nat, q: Place)
    requires StacksOk(central, slabs, place) && x < |place| && !place[x].Slab? && !q.Slab?
    requires Holds(central2, place[x := q], Central)
    ensures StacksOk(central2, slabs, place[x := q])
  {
    var place2 := place[x := q];
    forall c: nat ensures SlabOk(slabs, place2, c) {
      assert SlabOk(slabs, place, c);
      if c < |slabs| { HoldsElsewhere(slabs[c], place, x, q, Slab(c)); }
    }
  }

  /** A per-CPU stack and a frame in hand. */
  lemma SlabMoved(central: seq<nat>, slabs: seq<seq<nat>>, place: seq<Place>, cpu: nat, xs: seq<nat>, x: nat, q: Place)
    requires StacksOk(central, slabs, place) && cpu < |slabs| && x < |place| && |xs| <= CAP_PER_CPU
    requires place[x] != Central && q != Central && (place[x].Slab? ==> place[x].cpu == cpu) && (q.Slab? ==> q.cpu == cpu)
    requires Holds(xs, place[x := q], Slab(cpu))
    ensures StacksOk(central, slabs[cpu := xs], place[x := q])
  {
    var place2 := place[x := q];
    var slabs2 := slabs[cpu := xs];
    HoldsElsewhere(central, place, x, q, Central);
    forall c: nat ensures SlabOk(slabs2, place2, c) {
      assert SlabOk(slabs, place, c);
      if c < |slabs| && c != cpu { HoldsElsewhere(slabs[c], place, x, q, Slab(c)); }
    }
  }

  // --- what a turn and a whole refill or drain move, when no other thread interferes ---------

  ghost predicate RefillTurn(c0: seq<nat>, s0: seq<nat>, c1: seq<nat>, s1: seq<nat>, more: bool) {
    if c0 == [] || |s0| >= CAP_PER_CPU then !more && c1 == c0 && s1 == s0
    else more && c1 == c0[..|c0| - 1] && s1 == s0 + [c0[|c0| - 1]]
  }

  /** Only that CPU's stack has changed. */
  ghost predicate OnlyCpu(s0: seq<seq<nat>>, s1: seq<seq<nat>>, cpu: nat) {
    |s0| == |s1| && forall c | 0 <= c < |s0| && c != cpu :: s1[c] == s0[c]
  }

  /** From central stack `c0` and CPU stack `s0`: the top frame `x` handed out, and the next `k` moved over in turn. */
  ghost predicate RefilledTo(c0: seq<nat>, s0: seq<nat>, c1: seq<nat>, s1: seq<nat>, x: nat, k: nat) {
    && |c1| + k + 1 == |c0| && c1 == c0[..|c1|] && x == c0[|c0| - 1]
    && s1 == s0 + Reversed(c0[|c1|..|c0| - 1])
  }

  /** ... as many as there are and fit, up to `batch - 1`. */
  ghost predicate Refilled(c0: seq<nat>, s0: seq<nat>, c1: seq<nat>, s1: seq<nat>, x: nat, batch: nat) {
    exists k: nat :: RefilledTo(c0, s0, c1, s1, x, k) && k + 1 <= batch && (k + 1 < batch ==> c1 == [] || |s1| >= CAP_PER_CPU)
  }

  ghost predicate DrainTurn(c0: seq<nat>, s0: seq<nat>, c1: seq<nat>, s1: seq<nat>, more: bool) {
    if s0 == [] then !more && c1 == c0 && s1 == s0
    else more && s1 == s0[..|s0| - 1] && c1 == c0 + [s0[|s0| - 1]]
  }

  /** The top `k` frames of `s0` have moved to the central stack, in turn. */
  ghost predicate DrainedTo(c0: seq<nat>, s0: seq<nat>, c1: seq<nat>, s1: seq<nat>, k: nat) {
    k <= |s0| && s1 == s0[..|s0| - k] && c1 == c0 + Reversed(s0[|s0| - k..])
  }

  /** Half a batch, or the whole stack if it is shorter, has moved, and `x` is on top of the CPU's stack. */
  ghost predicate Drained(c0: seq<nat>, s0: seq<nat>, c1: seq<nat>, s1: seq<nat>, x: nat) {
    && s1 != [] && s1[|s1| - 1] == x
    && DrainedTo(c0, s0, c1, s1[..|s1| - 1], if |s0| <= BATCH / 2 then |s0| else BATCH / 2)
  }

  // --- what a whole batch of pops or pushes moves then -------------------------------------

  /** A CPU stack and the central stack behind it. */
  datatype Stacks = Stacks(central: seq<nat>, slab: seq<nat>)

  /** The frame a pop gives: the top of the CPU's stack, else of the central one, else none. */
  ghost function Top(z: Stacks): Option<nat> {
    if z.slab != [] then Some(z.slab[|z.slab| - 1])
    else if z.central != [] then Some(z.central[|z.central| - 1])
    else None
  }

  /** What it leaves: a CPU stack found empty gets the next 31 of the central one, or all there are. */
  ghost function Popped(z: Stacks): Stacks {
    if z.slab != [] then z.(slab := z.slab[..|z.slab| - 1])
    else if z.central == [] then z
    else
      var left := if |z.central| <= BATCH then 0 else |z.central| - BATCH;
      Stacks(z.central[..left], Reversed(z.central[left..|z.central| - 1]))
  }

  /** What pushing `x` leaves: on top of the CPU's stack, after a drain of half a batch if that is full. */
  ghost function Pushed(z: Stacks, x: nat): Stacks {
    if |z.slab| < CAP_PER_CPU then z.(slab := z.slab + [x])
    else
      var keep := |z.slab| - BATCH / 2;
      Stacks(z.central + Reversed(z.slab[keep..]), z.slab[..keep] + [x])
  }

  /** What up to `n` pops give, in order, and leave. */
  ghost function Tops(z: Stacks, n: nat): seq<nat> {
    if n == 0 then []
    else
      match Top(PoppedAll(z, n - 1))
      case None => Tops(z, n - 1)
      case Some(x) => Tops(z, n - 1) + [x]
  }

  ghost function PoppedAll(z: Stacks, n: nat): Stacks {
    if n == 0 then z else Popped(PoppedAll(z, n - 1))
  }

  ghost function PushedAll(z: Stacks, xs: seq<nat>): Stacks {
    if xs == [] then z else Pushed(PushedAll(z, xs[..|xs| - 1]), xs[|xs| - 1])
  }

  lemma PushedMore(z: Stacks, xs: seq<nat>, k: nat)
    requires 0 < k <= |xs|
    ensures PushedAll(z, Reversed(xs[k - 1..])) == Pushed(PushedAll(z, Reversed(xs[k..])), xs[k - 1])
  {
    var r := Reversed(xs[k..]);
    assert Reversed(xs[k - 1..]) == r + [xs[k - 1]];
    assert (r + [xs[k - 1]])[..|r|] == r;
  }

  /** A pop that gives none changes nothing, nor does any later one. */
  lemma {:induction false} Dry(z: Stacks, n: nat, m: nat)
    requires n <= m && Top(PoppedAll(z, n)) == None
    ensures Tops(z, m) == Tops(z, n) && PoppedAll(z, m) == PoppedAll(z, n)
    decreases m
  {
    if n < m { Dry(z, n, m - 1); }
  }

  lemma TopsMore(z: Stacks, n: nat)
    requires Top(PoppedAll(z, n)).Some?
    ensures Tops(z, n + 1) == Tops(z, n) + [Top(PoppedAll(z, n)).value] && PoppedAll(z, n + 1) == Popped(PoppedAll(z, n))
  {
  }

  lemma OneMore(out: seq<nat>, x: nat, held: multiset<nat>)
    requires SpanPools.Distinct(out) && x !in held + multiset(out) && forall y | y in out :: y !in held
    ensures SpanPools.Distinct(out + [x]) && forall y | y in out + [x] :: y !in held
    ensures held + multiset(out) + multiset{x} == held + multiset(out + [x])
    ensures multiset{x} + multiset(out) == multiset(out + [x])
  {
    assert x !in multiset(out);
  }

  /** Nothing comes out only if nothing is there. */
  lemma {:induction false} TopsEmpty(z: Stacks, n: nat)
    requires n > 0
    ensures Tops(z, n) == [] <==> z.slab == [] && z.central == []
  {
    if n == 1 {
      assert PoppedAll(z, 0) == z && Tops(z, 0) == [];
    } else {
      TopsEmpty(z, n - 1);
      if Tops(z, n - 1) == [] { Dry(z, 0, n - 1); }
    }
  }

  /** The exact pop is a refill when the CPU's stack is empty. */
  lemma RefillIs(c0: seq<nat>, c1: seq<nat>, s1: seq<nat>, x: nat)
    requires Refilled(c0, [], c1, s1, x, BATCH)
    ensures Popped(Stacks(c0, [])) == Stacks(c1, s1) && Top(Stacks(c0, [])) == Some(x)
  {
  }

  lemma DrainIs(c0: seq<nat>, s0: seq<nat>, c1: seq<nat>, s1: seq<nat>, x: nat)
    requires Drained(c0, s0, c1, s1, x) && |s0| >= CAP_PER_CPU
    ensures Pushed(Stacks(c0, s0), x) == Stacks(c1, s1)
  {
    assert s1 == s1[..|s1| - 1] + [x];
  }

  /** A frame gained and made live. */
  lemma TakenLive(t: nat, p0: seq<Place>, p1: seq<Place>, p2: seq<Place>, x: nat)
    requires Gained(t, p0, p1, x) && p2 == p1[x := Live]
    ensures Same(t, p0, p2)
  {
    forall i: nat | i < |p0| && (Mine(t, p0[i]) || Mine(t, p2[i])) ensures p2[i] == p0[i] {
      assert i != x ==> p2[i] == p1[i];
    }
  }

  /** The frames thread `t` has in its hands are those it had. */
  ghost predicate HandsSame(t: nat, p0: seq<Place>, p1: seq<Place>) {
    |p0| == |p1| && forall i: nat {:trigger p1[i]} | i < |p0| :: p1[i] == Hand(t) <==> p0[i] == Hand(t)
  }

  /** ... and frame `x`, which it had not. */
  ghost predicate HandsGain(t: nat, p0: seq<Place>, p1: seq<Place>, x: nat) {
    |p0| == |p1| && x < |p0| && p0[x] != Hand(t) && forall i: nat {:trigger p1[i]} | i < |p0| :: p1[i] == Hand(t) <==> p0[i] == Hand(t) || i == x
  }

  lemma HandsRound(t: nat, p0: seq<Place>, p1: seq<Place>, p2: seq<Place>, x: nat)
    requires x < |p0| && p0[x] == Live && p1 == p0[x := Hand(t)] && HandsGain(t, p2, p1, x)
    ensures HandsSame(t, p0, p2)
  {
    forall i: nat | i < |p0| ensures p2[i] == Hand(t) <==> p0[i] == Hand(t) {
      assert p1[i] == Hand(t) <==> p2[i] == Hand(t) || i == x;
    }
  }

  lemma NextOfBatch(p: multiset<nat>, fs: seq<nat>, i: nat)
    requires multiset(fs) <= p && i < |fs|
    ensures fs[i] in p - multiset(fs[..i])
    ensures p - multiset(fs[..i]) - multiset{fs[i]} == p - multiset(fs[..i + 1])
  {
    assert fs == fs[..i + 1] + fs[i + 1..] && fs[..i + 1] == fs[..i] + [fs[i]];
    assert multiset(fs) == multiset(fs[..i]) + multiset{fs[i]} + multiset(fs[i + 1..]);
  }

  /** Counts `hi` are counts `lo` and the references `b`. */
  ghost predicate MoreBy(hi: seq<nat>, lo: seq<nat>, b: multiset<nat>) {
    |hi| == |lo| && forall x: nat | x < |hi| :: hi[x] == lo[x] + b[x]
  }

  lemma MoreByThen(hi: seq<nat>, mid: seq<nat>, lo: seq<nat>, b: multiset<nat>, c: multiset<nat>)
    requires MoreBy(hi, mid, b) && MoreBy(mid, lo, c)
    ensures MoreBy(hi, lo, b + c)
  {
  }

  lemma MoreByBack(hi: seq<nat>, lo: seq<nat>, lo2: seq<nat>, b: multiset<nat>)
    requires MoreBy(hi, lo, b) && MoreBy(hi, lo2, b)
    ensures lo2 == lo
  {
    assert forall x: nat | x < |hi| :: hi[x] == lo[x] + b[x] == lo2[x] + b[x];
  }

  /** The frames of a batch that lose their last reference, in the order they do, from counts `r0`. */
  ghost function LastOnes(r0: seq<nat>, fs: seq<nat>): seq<nat> {
    if fs == [] then []
    else
      var f, before := fs[|fs| - 1], fs[..|fs| - 1];
      LastOnes(r0, before) + if f < |r0| && r0[f] == multiset(before)[f] + 1 then [f] else []
  }

  /** One more of a batch: it is the last reference exactly if one was left. */
  lemma LastOnesMore(z: Stacks, r0: seq<nat>, r1: seq<nat>, fs: seq<nat>, i: nat)
    requires i < |fs| && MoreBy(r0, r1, multiset(fs[..i])) && fs[i] < |r1|
    ensures var z1 := PushedAll(z, LastOnes(r0, fs[..i]));
            PushedAll(z, LastOnes(r0, fs[..i + 1])) == if r1[fs[i]] == 1 then Pushed(z1, fs[i]) else z1
  {
    var f, b, xs := fs[i], fs[..i + 1], LastOnes(r0, fs[..i]);
    assert b[..i] == fs[..i] && b[i] == f && r0[f] == r1[f] + multiset(fs[..i])[f];
    assert LastOnes(r0, b) == xs + if r1[f] == 1 then [f] else [];
    assert (xs + [f])[..|xs|] == xs && xs + [] == xs;
  }

  class FramePool {
    const n: nat
    const cpus: nat
    const slots: array<nat>
    const refs: array<nat>
    var top: nat
    var slabs: seq<seq<nat>>

    /** Where every frame is, and whether other threads are idle. */
    var place: seq<Place>
    var alone: bool

    /** The references that the thread we follow holds, each frame as often as it holds one: others may add and
        give up references of their own, but not those. */
    var pinned: multiset<nat>

    ghost predicate Shape()
      reads this
    {
      slots.Length == refs.Length == |place| == n && top <= n && |slabs| == cpus >= 1 && slots != refs
    }

    ghost predicate Valid()
      reads this, slots, refs
    {
      Shape() && StacksOk(slots[..top], slabs, place) && RefsOk(refs[..], place) && Pinned()
    }

    ghost predicate Pinned()
      requires Shape()
      reads this, refs
    {
      forall x | x in pinned :: x < n && place[x] == Live && pinned[x] <= refs[x]
    }

    /** A pool of `frames` frames: all of them on the central stack, the last on top. */
    constructor (frames: nat, cpus: nat, alone: bool)
      requires cpus >= 1
      ensures Valid() && fresh(slots) && fresh(refs) && n == frames && this.cpus == cpus && this.alone == alone && pinned == multiset{}
      ensures |CentralStack()| == frames && (forall i | 0 <= i < frames :: CentralStack()[i] == i)
      ensures slabs == seq(cpus, _ => []) && forall i: nat | i < frames :: place[i] == Central && refs[i] == 0
    {
      n, this.cpus, this.alone, top, pinned := frames, cpus, alone, frames, multiset{};
      slots := new nat[frames](i => i);
      refs := new nat[frames](_ => 0);
      slabs := seq(cpus, _ => []);
      place := seq(frames, _ => Central);
      new;
      forall x: nat ensures x in slots[..top] <==> x < |place| && place[x] == Central {
        assert x < frames ==> slots[..top][x] == x;
      }
    }

    ghost function CentralStack(): seq<nat>
      requires Shape()
      reads this, slots
    {
      slots[..top]
    }

    ghost function StacksOf(cpu: nat): Stacks
      requires Shape() && cpu < cpus
      reads this, slots
    {
      Stacks(CentralStack(), slabs[cpu])
    }

    // --- one atomic step -----------------------------------------------------------

    method PopCentral(t: nat) returns (r: Option<nat>)
      requires Valid()
      modifies this`top, this`place
      ensures Valid()
      ensures r.None? <==> old(CentralStack()) == []
      ensures r.None? ==> top == old(top) && place == old(place)
      ensures r.Some? ==> CentralStack() + [r.value] == old(CentralStack()) && r.value < n && place == old(place)[r.value := Hand(t)]
      ensures r.Some? ==> old(place)[r.value] == Central
    {
      if top == 0 {
        return None;
      }
      ghost var xs := slots[..top];
      var x := slots[top - 1];
      HoldsPop(xs, place, Central, Hand(t));
      assert x in xs && xs[..top - 1] == slots[..top - 1];
      CentralMoved(xs, xs[..top - 1], slabs, place, x, Hand(t));
      top := top - 1;
      place := place[x := Hand(t)];
      return Some(x);
    }

    /** There is always room: the frames on the stack are distinct. */
    method PushCentral(t: nat, x: nat)
      requires Valid() && x < n && place[x] == Hand(t)
      modifies this`top, this`place, slots
      ensures Valid() && CentralStack() == old(CentralStack()) + [x] && place == old(place)[x := Central]
    {
      ghost var xs := slots[..top];
      HoldsPush(xs, place, x, Central);
      Pigeonhole(xs + [x], n);
      CentralMoved(xs, xs + [x], slabs, place, x, Central);
      slots[top] := x;
      top := top + 1;
      place := place[x := Central];
      assert slots[..top] == xs + [x];
    }

    method PopSlab(t: nat, cpu: nat) returns (r: Option<nat>)
      requires Valid() && cpu < cpus
      modifies this`slabs, this`place
      ensures Valid()
      ensures r.None? <==> old(slabs[cpu]) == []
      ensures r.None? ==> slabs == old(slabs) && place == old(place)
      ensures r.Some? ==> && slabs == old(slabs)[cpu := slabs[cpu]] && slabs[cpu] + [r.value] == old(slabs[cpu])
                          && r.value < n && place == old(place)[r.value := Hand(t)] && old(place)[r.value] == Slab(cpu)
    {
      var xs := slabs[cpu];
      if xs == [] {
        return None;
      }
      var x := xs[|xs| - 1];
      assert SlabOk(slabs, place, cpu);
      HoldsPop(xs, place, Slab(cpu), Hand(t));
      assert x in xs;
      SlabMoved(slots[..top], slabs, place, cpu, xs[..|xs| - 1], x, Hand(t));
      slabs := slabs[cpu := xs[..|xs| - 1]];
      place := place[x := Hand(t)];
      return Some(x);
    }

    method PushSlab(t: nat, cpu: nat, x: nat) returns (ok: bool)
      requires Valid() && cpu < cpus && x < n && place[x] == Hand(t)
      modifies this`slabs, this`place
      ensures Valid()
      ensures ok <==> |old(slabs[cpu])| < CAP_PER_CPU
      ensures !ok ==> slabs == old(slabs) && place == old(place)
      ensures ok ==> slabs == old(slabs)[cpu := old(slabs[cpu]) + [x]] && place == old(place)[x := Slab(cpu)]
    {
      var xs := slabs[cpu];
      assert SlabOk(slabs, place, cpu);
      if |xs| >= CAP_PER_CPU {
        return false;
      }
      HoldsPush(xs, place, x, Slab(cpu));
      SlabMoved(slots[..top], slabs, place, cpu, xs + [x], x, Slab(cpu));
      slabs := slabs[cpu := xs + [x]];
      place := place[x := Slab(cpu)];
      return true;
    }

    /** `on_alloc`: the frame in hand becomes live with one reference. */
    method OnAlloc(t: nat, x: nat)
      requires Valid() && x < n && place[x] == Hand(t)
      modifies this`place, refs
      ensures Valid() && place == old(place)[x := Live] && refs[..] == old(refs[..])[x := 1]
    {
      StacksKept(slots[..top], slabs, place, x, Live);
      place := place[x := Live];
      refs[x] := 1;
      assert refs[..] == old(refs[..])[x := 1];
    }

    /** The frame in hand becomes live, and its one reference is ours. */
    method Claim(t: nat, x: nat)
      requires Valid() && x < n && place[x] == Hand(t)
      modifies this`place, this`pinned, refs
      ensures Valid() && place == old(place)[x := Live] && refs[x] == 1
      ensures x !in old(pinned) && pinned == old(pinned) + multiset{x} && MoreBy(refs[..], old(refs[..]), multiset{x})
    {
      assert refs[..][x] == 0;
      OnAlloc(t, x);
      pinned := pinned + multiset{x};
      assert refs[..][x] == 1;
    }

    /** `retain`: one more reference to a live frame. */
    method Retain(x: nat)
      requires Valid() && x < n && place[x] == Live
      modifies refs
      ensures Valid() && refs[..] == old(refs[..])[x := old(refs[x]) + 1]
    {
      assert refs[..][x] >= 1;
      refs[x] := refs[x] + 1;
      assert refs[..] == old(refs[..])[x := old(refs[x]) + 1];
    }

    /** `release`: give up one reference; the last one leaves the frame in the caller's hands. */
    method OnFree(t: nat, x: nat) returns (last: bool)
      requires Valid() && x < n && place[x] == Live && pinned[x] < refs[x]
      modifies this`place, refs
      ensures Valid() && refs[..] == old(refs[..])[x := old(refs[x]) - 1]
      ensures (last <==> old(refs[x]) == 1) && place == if last then old(place)[x := Hand(t)] else old(place)
    {
      assert refs[..][x] >= 1;
      last := refs[x] == 1;
      refs[x] := refs[x] - 1;
      if last {
        StacksKept(slots[..top], slabs, place, x, Hand(t));
        place := place[x := Hand(t)];
      }
      assert refs[..] == old(refs[..])[x := old(refs[x]) - 1];
    }

    // --- what other threads do meanwhile ---------------------------------------------

    /** Move a frame that is on no stack. */
    method Shift(x: nat, q: Place)
      requires Valid() && x < n && place[x] != Central && !place[x].Slab? && place[x] != Live && q != Central && !q.Slab? && q != Live
      modifies this`place
      ensures Valid() && place == old(place)[x := q]
    {
      StacksKept(slots[..top], slabs, place, x, q);
      place := place[x := q];
    }

    /** One step of another thread `u`. */
    method OtherStep(t: nat, u: nat, locked: bool)
      requires Valid() && u != t
      modifies this`top, this`slabs, this`place, slots, refs
      ensures Valid() && Same(t, old(place), place) && (locked ==> top == old(top) && slots[..] == old(slots[..]))
    {
      hide StacksOk, RefsOk, FramePool.Pinned;
      var step: int, x: int, cpu: int := *, *, *;
      if 0 <= cpu < cpus && step == 0 {
        var r := PopSlab(u, cpu);
      } else if !locked && step == 1 {
        var r := PopCentral(u);
      } else if 0 <= x < n && place[x] == Hand(u) {
        if step == 2 && 0 <= cpu < cpus {
          var ok := PushSlab(u, cpu, x);
        } else if step == 3 && !locked {
          PushCentral(u, x);
        } else if step == 4 {
          OnAlloc(u, x);
        } else {
          Shift(x, Cache(u));
        }
      } else if 0 <= x < n && place[x] == Cache(u) {
        Shift(x, Hand(u));
      } else if 0 <= x < n && place[x] == Live {
        if step == 5 {
          Retain(x);
        } else if pinned[x] < refs[x] {
          var last := OnFree(u, x);
        }
      }
    }

    /** Any number of steps of other threads; with the central lock held they leave the central stack. */
    method Interfere(t: nat, locked: bool)
      requires Valid()
      modifies this`top, this`slabs, this`place, slots, refs
      ensures Valid() && Same(t, old(place), place)
      ensures locked ==> top == old(top) && slots[..] == old(slots[..])
      ensures alone ==> top == old(top) && slots[..] == old(slots[..]) && slabs == old(slabs) && place == old(place) && refs[..] == old(refs[..])
    {
      if alone {
        return;
      }
      var steps :| 0 <= steps;
      for k := 0 to steps
        invariant Valid() && Same(t, old(place), place)
        invariant locked ==> top == old(top) && slots[..] == old(slots[..])
      {
        var v :| 0 <= v;
        OtherStep(t, if v < t then v else v + 1, locked);
      }
    }

    /** A thread may have migrated since it last looked. */
    method CpuNow(cpu: nat) returns (c: nat)
      requires Valid() && cpu < cpus
      ensures c < cpus && (alone ==> c == cpu)
    {
      c := cpu;
      if !alone {
        c :| 0 <= c < cpus;
      }
    }

    // --- refill and drain --------------------------------------------------------------

    /** One turn of a refill, the central lock held: move a frame from the central stack to a CPU's. */
    method RefillOne(t: nat, cpu: nat) returns (more: bool)
      requires Valid() && cpu < cpus
      modifies this`top, this`slabs, this`place, slots, refs
      ensures Valid() && Same(t, old(place), place)
      ensures alone ==> RefillTurn(old(CentralStack()), old(slabs[cpu]), CentralStack(), slabs[cpu], more)
      ensures alone ==> OnlyCpu(old(slabs), slabs, cpu)
      ensures alone ==> refs[..] == old(refs[..])
    {
      hide StacksOk, RefsOk, FramePool.Pinned;
      var p := PopCentral(t);
      if p.None? {
        return false;
      }
      Interfere(t, true);
      var c := CpuNow(cpu);
      more := PushSlab(t, c, p.value);
      if !more {
        PushCentral(t, p.value);
      }
    }

    /** The next turn of a refill that began at places `p0` and has moved `k` frames. */
    method RefillNext(t: nat, cpu: nat, x: nat, ghost k: nat, ghost p0: seq<Place>, ghost c0: seq<nat>, ghost s0: seq<nat>) returns (more: bool)
      requires Valid() && cpu < cpus && Gained(t, p0, place, x)
      requires alone ==> RefilledTo(c0, s0, CentralStack(), slabs[cpu], x, k)
      modifies this`top, this`slabs, this`place, slots, refs
      ensures Valid() && Gained(t, p0, place, x)
      ensures alone && more ==> RefilledTo(c0, s0, CentralStack(), slabs[cpu], x, k + 1)
      ensures alone && !more ==> RefilledTo(c0, s0, CentralStack(), slabs[cpu], x, k) && (CentralStack() == [] || |slabs[cpu]| >= CAP_PER_CPU)
      ensures alone ==> OnlyCpu(old(slabs), slabs, cpu)
      ensures alone ==> refs[..] == old(refs[..])
    {
      more := RefillOne(t, cpu);
    }

    /** Pull a batch off the central stack: one frame for the caller, up to 31 more for the CPU's stack. None
        means the central stack was empty. */
    method Refill(t: nat, cpu: nat) returns (r: Option<nat>)
      requires Valid() && cpu < cpus
      modifies this`top, this`slabs, this`place, slots, refs
      ensures Valid()
      ensures r.None? ==> Same(t, old(place), place) && CentralStack() == []
      ensures r.Some? ==> Gained(t, old(place), place, r.value)
      ensures alone ==> (r.None? <==> old(CentralStack()) == [])
      ensures alone && r.None? ==> slabs[cpu] == old(slabs[cpu])
      ensures alone && r.Some? ==> Refilled(old(CentralStack()), old(slabs[cpu]), CentralStack(), slabs[cpu], r.value, BATCH)
      ensures alone ==> OnlyCpu(old(slabs), slabs, cpu)
      ensures alone ==> refs[..] == old(refs[..])
      ensures alone && r.None? ==> slabs == old(slabs)
    {
      hide StacksOk, RefsOk, FramePool.Pinned;
      Interfere(t, false);
      ghost var c0, s0 := CentralStack(), slabs[cpu];
      r := PopCentral(t);
      if r.None? {
        return;
      }
      assert Reversed(c0[|c0| - 1..|c0| - 1]) == [];
      var i, more := 1, true;
      while i < BATCH && more
        invariant 1 <= i <= BATCH && Valid() && Gained(t, old(place), place, r.value)
        invariant alone ==> OnlyCpu(old(slabs), slabs, cpu)
        invariant alone ==> refs[..] == old(refs[..])
        invariant alone && more ==> RefilledTo(c0, s0, CentralStack(), slabs[cpu], r.value, i - 1)
        invariant alone && !more ==> Refilled(c0, s0, CentralStack(), slabs[cpu], r.value, BATCH)
        decreases BATCH - i
      {
        more := RefillNext(t, cpu, r.value, i - 1, old(place), c0, s0);
        i := i + 1;
      }
    }

    /** One turn of a drain. */
    method DrainOne(t: nat, cpu: nat) returns (more: bool)
      requires Valid() && cpu < cpus
      modifies this`top, this`slabs, this`place, slots, refs
      ensures Valid() && Same(t, old(place), place)
      ensures alone ==> DrainTurn(old(CentralStack()), old(slabs[cpu]), CentralStack(), slabs[cpu], more)
      ensures alone ==> OnlyCpu(old(slabs), slabs, cpu)
      ensures alone ==> refs[..] == old(refs[..])
    {
      hide StacksOk, RefsOk, FramePool.Pinned;
      var c := CpuNow(cpu);
      var p := PopSlab(t, c);
      if p.None? {
        return false;
      }
      Interfere(t, true);
      PushCentral(t, p.value);
      return true;
    }

    /** The next turn of a drain that began at places `p0` and has moved `k` frames. */
    method DrainNext(t: nat, cpu: nat, ghost k: nat, ghost p0: seq<Place>, ghost c0: seq<nat>, ghost s0: seq<nat>) returns (more: bool)
      requires Valid() && cpu < cpus && Same(t, p0, place)
      requires alone ==> DrainedTo(c0, s0, CentralStack(), slabs[cpu], k)
      modifies this`top, this`slabs, this`place, slots, refs
      ensures Valid() && Same(t, p0, place)
      ensures alone && more ==> DrainedTo(c0, s0, CentralStack(), slabs[cpu], k + 1)
      ensures alone && !more ==> DrainedTo(c0, s0, CentralStack(), slabs[cpu], k) && k == |s0|
      ensures alone ==> OnlyCpu(old(slabs), slabs, cpu)
      ensures alone ==> refs[..] == old(refs[..])
    {
      more := DrainOne(t, cpu);
    }

    /** Give half a batch back to the central stack, then stash the frame in hand. */
    method Drain(t: nat, cpu: nat, x: nat)
      requires Valid() && cpu < cpus && x < n && place[x] == Hand(t)
      modifies this`top, this`slabs, this`place, slots, refs
      ensures Valid() && LetGo(t, old(place), place, x)
      ensures alone ==> Drained(old(CentralStack()), old(slabs[cpu]), CentralStack(), slabs[cpu], x)
      ensures alone ==> OnlyCpu(old(slabs), slabs, cpu)
      ensures alone ==> refs[..] == old(refs[..])
    {
      hide RefsOk, FramePool.Pinned, Holds;
      Interfere(t, false);
      ghost var c0, s0 := CentralStack(), slabs[cpu];
      assert SlabOk(slabs, place, cpu);
      var i, more := 0, true;
      while i < BATCH / 2 && more
        invariant i <= BATCH / 2 && Valid() && Same(t, old(place), place)
        invariant alone ==> OnlyCpu(old(slabs), slabs, cpu)
        invariant alone ==> refs[..] == old(refs[..])
        invariant alone && more ==> DrainedTo(c0, s0, CentralStack(), slabs[cpu], i)
        invariant alone && !more ==> DrainedTo(c0, s0, CentralStack(), slabs[cpu], |s0|) && |s0| <= i
        decreases BATCH / 2 - i
      {
        more := DrainNext(t, cpu, i, old(place), c0, s0);
        i := i + 1;
      }
      Stash(t, cpu, x);
    }

    /** Put a frame on a CPU's stack, or on the central one if that is full. */
    method Stash(t: nat, cpu: nat, x: nat)
      requires Valid() && cpu < cpus && x < n && place[x] == Hand(t)
      modifies this`top, this`slabs, this`place, slots, refs
      ensures Valid() && LetGo(t, old(place), place, x)
      ensures alone && |old(slabs[cpu])| < CAP_PER_CPU ==> CentralStack() == old(CentralStack()) && slabs[cpu] == old(slabs[cpu]) + [x]
      ensures alone && |old(slabs[cpu])| >= CAP_PER_CPU ==> CentralStack() == old(CentralStack()) + [x] && slabs == old(slabs)
      ensures alone ==> OnlyCpu(old(slabs), slabs, cpu)
      ensures alone ==> refs[..] == old(refs[..])
    {
      var c := CpuNow(cpu);
      var ok := PushSlab(t, c, x);
      if !ok {
        PushCentral(t, x);
      }
    }

    // --- the pool's own interface --------------------------------------------------------

    method PopL2(t: nat, cpu: nat) returns (r: Option<nat>)
      requires Valid() && cpu < cpus
      modifies this`top, this`slabs, this`place, slots, refs
      ensures Valid()
      ensures if r.None? then Same(t, old(place), place) else Gained(t, old(place), place, r.value)
      ensures r.None? ==> CentralStack() == []
      ensures alone ==> (r.None? <==> old(slabs[cpu]) == [] && old(CentralStack()) == [])
      ensures alone ==> OnlyCpu(old(slabs), slabs, cpu)
      ensures alone ==> r == Top(old(StacksOf(cpu))) && StacksOf(cpu) == Popped(old(StacksOf(cpu)))
      ensures alone ==> refs[..] == old(refs[..])
      ensures alone && r.Some? ==>
                if old(slabs[cpu]) != [] then slabs[cpu] + [r.value] == old(slabs[cpu]) && CentralStack() == old(CentralStack())
                else Refilled(old(CentralStack()), [], CentralStack(), slabs[cpu], r.value, BATCH)
      ensures alone && r.None? ==> slabs == old(slabs)
    {
      hide StacksOk, RefsOk, FramePool.Pinned;
      Interfere(t, false);
      var c := CpuNow(cpu);
      r := PopSlab(t, c);
      if r.None? {
        r := Refill(t, cpu);
        if alone && r.Some? { RefillIs(old(CentralStack()), CentralStack(), slabs[cpu], r.value); }
      }
    }

    method PushL2(t: nat, cpu: nat, x: nat)
      requires Valid() && cpu < cpus && x < n && place[x] == Hand(t)
      modifies this`top, this`slabs, this`place, slots, refs
      ensures Valid() && LetGo(t, old(place), place, x) && (alone ==> place[x] != Live)
      ensures alone && |old(slabs[cpu])| < CAP_PER_CPU ==> slabs[cpu] == old(slabs[cpu]) + [x] && CentralStack() == old(CentralStack())
      ensures alone && |old(slabs[cpu])| >= CAP_PER_CPU ==> Drained(old(CentralStack()), old(slabs[cpu]), CentralStack(), slabs[cpu], x)
      ensures alone ==> OnlyCpu(old(slabs), slabs, cpu)
      ensures alone ==> StacksOf(cpu) == Pushed(old(StacksOf(cpu)), x)
      ensures alone ==> refs[..] == old(refs[..])
    {
      Interfere(t, false);
      var c := CpuNow(cpu);
      var ok := PushSlab(t, c, x);
      if !ok {
        Drain(t, cpu, x);
        if alone { DrainIs(old(CentralStack()), old(slabs[cpu]), CentralStack(), slabs[cpu], x); }
        assert SlabOk(slabs, place, cpu);
        assert alone ==> x in slabs[cpu];
      }
    }

    /** A fresh frame with one reference, which nobody else has; or none, when this CPU's stack and the
        central stack are empty. */
    method Alloc(t: nat, cpu: nat) returns (r: Option<nat>)
      requires Valid() && cpu < cpus
      modifies this`top, this`slabs, this`place, this`pinned, slots, refs
      ensures Valid() && Same(t, old(place), place)
      ensures r.None? ==> pinned == old(pinned) && CentralStack() == []
      ensures r.Some? ==> r.value < n && place[r.value] == Live && refs[r.value] == 1
      ensures r.Some? ==> r.value !in old(pinned) && pinned == old(pinned) + multiset{r.value}
      ensures alone ==> (r.None? <==> old(slabs[cpu]) == [] && old(CentralStack()) == [])
      ensures alone ==> OnlyCpu(old(slabs), slabs, cpu)
      ensures alone ==> r == Top(old(StacksOf(cpu))) && StacksOf(cpu) == Popped(old(StacksOf(cpu)))
      ensures alone && r.Some? ==>
                if old(slabs[cpu]) != [] then slabs[cpu] + [r.value] == old(slabs[cpu]) && CentralStack() == old(CentralStack())
                else Refilled(old(CentralStack()), [], CentralStack(), slabs[cpu], r.value, BATCH)
      ensures alone && r.None? ==> slabs == old(slabs)
      ensures alone ==> MoreBy(refs[..], old(refs[..]), if r.Some? then multiset{r.value} else multiset{})
    {
      r := PopL2(t, cpu);
      if r.Some? {
        ghost var p1 := place;
        Claim(t, r.value);
        TakenLive(t, old(place), p1, place, r.value);
      }
    }

    /** Release our reference to a frame: one of several, and only the count changes; or the last one, and the
        frame is off to the pool. */
    method Free(t: nat, cpu: nat, f: nat) returns (last: bool)
      requires Valid() && cpu < cpus && f in pinned
      modifies this`top, this`slabs, this`place, this`pinned, slots, refs
      ensures Valid() && Same(t, old(place), place) && pinned == old(pinned) - multiset{f} && (last <==> old(refs[f]) == 1)
      ensures !last ==> refs[..] == old(refs[..])[f := old(refs[f]) - 1] && place == old(place) && top == old(top) && slabs == old(slabs)
      ensures last && alone ==> place[f] != Live && refs[f] == 0
      ensures last && alone && |old(slabs[cpu])| < CAP_PER_CPU ==> slabs[cpu] == old(slabs[cpu]) + [f] && CentralStack() == old(CentralStack())
      ensures alone ==> OnlyCpu(old(slabs), slabs, cpu)
      ensures alone ==> StacksOf(cpu) == if last then Pushed(old(StacksOf(cpu)), f) else old(StacksOf(cpu))
      ensures alone ==> MoreBy(old(refs[..]), refs[..], multiset{f})
    {
      hide StacksOk, RefsOk;
      pinned := pinned - multiset{f};
      last := OnFree(t, f);
      if last {
        PushL2(t, cpu, f);
        assert alone ==> place[f] != Live;
      }
    }

    /** Return a frame that is already dead. */
    method Recycle(t: nat, cpu: nat, f: nat)
      requires Valid() && cpu < cpus && f < n && place[f] == Hand(t)
      modifies this`top, this`slabs, this`place, slots, refs
      ensures Valid() && LetGo(t, old(place), place, f) && (alone ==> refs[..] == old(refs[..]))
      ensures alone && |old(slabs[cpu])| < CAP_PER_CPU ==> slabs[cpu] == old(slabs[cpu]) + [f] && CentralStack() == old(CentralStack())
      ensures alone && |old(slabs[cpu])| >= CAP_PER_CPU ==> Drained(old(CentralStack()), old(slabs[cpu]), CentralStack(), slabs[cpu], f)
    {
      PushL2(t, cpu, f);
    }

    /** How far a batch allocation has come, begun at places `p0`, references `held`, counts `r0` and stacks `z`. */
    ghost predicate Batched(t: nat, cpu: nat, out: seq<nat>, p0: seq<Place>, held: multiset<nat>, r0: seq<nat>, z: Stacks)
      requires Shape() && cpu < cpus
      reads this, slots, refs
    {
      && Same(t, p0, place) && SpanPools.Distinct(out) && (forall x | x in out :: x !in held)
      && pinned == held + multiset(out)
      && (alone ==> MoreBy(refs[..], r0, multiset(out)) && out == Tops(z, |out|) && StacksOf(cpu) == PoppedAll(z, |out|))
    }

    /** The next turn of a batch allocation. */
    method AllocNext(t: nat, cpu: nat, out0: seq<nat>, ghost p0: seq<Place>, ghost held: multiset<nat>, ghost r0: seq<nat>, ghost z: Stacks)
      returns (out: seq<nat>)
      requires Valid() && cpu < cpus && Batched(t, cpu, out0, p0, held, r0, z)
      modifies this`top, this`slabs, this`place, this`pinned, slots, refs
      ensures Valid() && Batched(t, cpu, out, p0, held, r0, z)
      ensures if |out| == |out0| then out == out0 && CentralStack() == [] && (alone ==> Top(PoppedAll(z, |out|)) == None) else |out| == |out0| + 1
    {
      hide StacksOk, RefsOk, FramePool.Pinned, OnlyCpu, Refilled, Popped, Top, Tops, PoppedAll, MoreBy, SpanPools.Distinct;
      ghost var r1 := refs[..];
      var r := Alloc(t, cpu);
      out := out0;
      if r.Some? {
        OneMore(out0, r.value, held);
        if alone {
          MoreByThen(refs[..], r1, r0, multiset{r.value}, multiset(out0));
          TopsMore(z, |out0|);
        }
        out := out0 + [r.value];
      } else if alone {
        MoreByThen(refs[..], r1, r0, multiset{}, multiset(out0));
        assert multiset{} + multiset(out0) == multiset(out0);
        Dry(z, |out0|, |out0| + 1);
      }
    }

    /** Up to `room` frames, all different and none already held, each with one reference. */
    method AllocN(t: nat, cpu: nat, room: nat) returns (out: seq<nat>)
      requires Valid() && cpu < cpus
      modifies this`top, this`slabs, this`place, this`pinned, slots, refs
      ensures Valid() && Same(t, old(place), place) && |out| <= room
      ensures SpanPools.Distinct(out) && forall x | x in out :: x !in old(pinned)
      ensures pinned == old(pinned) + multiset(out)
      ensures |out| < room ==> CentralStack() == []
      ensures alone ==> MoreBy(refs[..], old(refs[..]), multiset(out))
      ensures alone ==> out == Tops(old(StacksOf(cpu)), room) && StacksOf(cpu) == PoppedAll(old(StacksOf(cpu)), room)
    {
      hide StacksOk, RefsOk, FramePool.Pinned, Popped, Top;
      out := [];
      ghost var z := StacksOf(cpu);
      while |out| < room
        invariant Valid() && |out| <= room && Batched(t, cpu, out, old(place), old(pinned), old(refs[..]), z)
        decreases room - |out|
      {
        var before := |out|;
        out := AllocNext(t, cpu, out, old(place), old(pinned), old(refs[..]), z);
        if |out| == before {
          if alone { Dry(z, |out|, room); }
          break;
        }
      }
    }

    /** Take one more reference to a frame we hold one to. */
    method Share(f: nat)
      requires Valid() && f in pinned
      modifies this`pinned, refs
      ensures Valid() && pinned == old(pinned) + multiset{f} && refs[..] == old(refs[..])[f := old(refs[f]) + 1]
    {
      Retain(f);
      pinned := pinned + multiset{f};
    }

    lemma PinnedBelow(f: nat)
      requires Valid() && f in pinned
      ensures f < n
    {
    }

    /** The next turn of giving up a batch, begun at places `p0`, references `held` and counts `r0`. */
    method FreeNext(t: nat, cpu: nat, fs: seq<nat>, i: nat, ghost p0: seq<Place>, ghost held: multiset<nat>, ghost r0: seq<nat>,
                    ghost s0: seq<seq<nat>>, ghost z: Stacks)
      requires Valid() && cpu < cpus && multiset(fs) <= held && i < |fs| && Same(t, p0, place)
      requires pinned == held - multiset(fs[..i]) && (alone ==> MoreBy(r0, refs[..], multiset(fs[..i])))
      requires alone ==> OnlyCpu(s0, slabs, cpu) && StacksOf(cpu) == PushedAll(z, LastOnes(r0, fs[..i]))
      modifies this`top, this`slabs, this`place, this`pinned, slots, refs
      ensures Valid() && Same(t, p0, place) && pinned == held - multiset(fs[..i + 1])
      ensures alone ==> MoreBy(r0, refs[..], multiset(fs[..i + 1]))
      ensures alone ==> OnlyCpu(s0, slabs, cpu) && StacksOf(cpu) == PushedAll(z, LastOnes(r0, fs[..i + 1]))
    {
      hide StacksOk, RefsOk, FramePool.Pinned, MoreBy, LastOnes, PushedAll, Pushed, Drained;
      NextOfBatch(held, fs, i);
      PinnedBelow(fs[i]);
      if alone { LastOnesMore(z, r0, refs[..], fs, i); }
      ghost var r1 := refs[..];
      var last := Free(t, cpu, fs[i]);
      if alone {
        MoreByThen(r0, r1, refs[..], multiset(fs[..i]), multiset{fs[i]});
        assert fs[..i + 1] == fs[..i] + [fs[i]];
      }
    }

    /** Give up the references of a batch, in which a frame may occur as often as we hold a reference to it. */
    method FreeN(t: nat, cpu: nat, fs: seq<nat>)
      requires Valid() && cpu < cpus && multiset(fs) <= pinned
      modifies this`top, this`slabs, this`place, this`pinned, slots, refs
      ensures Valid() && Same(t, old(place), place) && pinned == old(pinned) - multiset(fs)
      ensures alone ==> MoreBy(old(refs[..]), refs[..], multiset(fs))
      ensures alone ==> OnlyCpu(old(slabs), slabs, cpu) && StacksOf(cpu) == PushedAll(old(StacksOf(cpu)), LastOnes(old(refs[..]), fs))
    {
      hide StacksOk, RefsOk, FramePool.Pinned;
      ghost var z := StacksOf(cpu);
      var i := 0;
      while i < |fs|
        invariant i <= |fs| && Valid() && Same(t, old(place), place)
        invariant pinned == old(pinned) - multiset(fs[..i])
        invariant alone ==> MoreBy(old(refs[..]), refs[..], multiset(fs[..i]))
        invariant alone ==> OnlyCpu(old(slabs), slabs, cpu) && StacksOf(cpu) == PushedAll(z, LastOnes(old(refs[..]), fs[..i]))
      {
        FreeNext(t, cpu, fs, i, old(place), old(pinned), old(refs[..]), old(slabs), z);
        i := i + 1;
      }
      assert fs[..i] == fs;
    }

    /** A reference taken and given up again leaves counts, places and stacks as they were, whoever else is at work. */
    method ShareThenFree(t: nat, cpu: nat, f: nat)
      requires Valid() && cpu < cpus && f in pinned
      modifies this`top, this`slabs, this`place, this`pinned, slots, refs
      ensures Valid() && pinned == old(pinned) && refs[..] == old(refs[..]) && place == old(place)
      ensures top == old(top) && slabs == old(slabs)
    {
      Share(f);
      var last := Free(t, cpu, f);
    }

    /** A batch allocated and given back leaves every count as it was. */
    method AllocNThenFreeN(t: nat, cpu: nat, room: nat)
      requires Valid() && cpu < cpus
      modifies this`top, this`slabs, this`place, this`pinned, slots, refs
      ensures Valid() && Same(t, old(place), place) && pinned == old(pinned)
      ensures alone ==> refs[..] == old(refs[..])
    {
      hide StacksOk, RefsOk, FramePool.Pinned;
      var out := AllocN(t, cpu, room);
      ghost var r1 := refs[..];
      FreeN(t, cpu, out);
      if alone {
        MoreByBack(r1, old(refs[..]), refs[..], multiset(out));
      }
    }
  }

  /** A thread's cache of up to 32 free frames in front of the pool. */
  class FrameCache {
    const pool: FramePool
    const t: nat
    const ptrs: array<nat>
    var len: nat

    ghost predicate Valid()
      reads this, ptrs, pool, pool.slots, pool.refs
    {
      && pool.Valid() && ptrs.Length == FRAME_MAG_CAP && len <= FRAME_MAG_CAP && ptrs != pool.slots && ptrs != pool.refs
      && Holds(ptrs[..len], pool.place, Cache(t))
    }

    ghost function Cached(): seq<nat>
      requires len <= ptrs.Length
      reads this, ptrs
    {
      ptrs[..len]
    }

    constructor (pool: FramePool, t: nat)
      requires pool.Valid() && forall x: nat | x < |pool.place| :: pool.place[x] != Cache(t)
      ensures Valid() && fresh(ptrs) && this.pool == pool && this.t == t && Cached() == []
    {
      this.pool, this.t, this.len := pool, t, 0;
      ptrs := new nat[FRAME_MAG_CAP];
    }

    /** The top cached frame, in hand. */
    method TakeTop() returns (x: nat)
      requires Valid() && len > 0
      modifies this`len, pool`place
      ensures Valid() && Cached() + [x] == old(Cached()) && x < pool.n && pool.place == old(pool.place)[x := Hand(t)]
      ensures old(pool.place)[x] == Cache(t)
    {
      ghost var xs := ptrs[..len];
      x := ptrs[len - 1];
      assert x in xs;
      HoldsPop(xs, pool.place, Cache(t), Hand(t));
      pool.Shift(x, Hand(t));
      len := len - 1;
      assert ptrs[..len] == xs[..|xs| - 1];
    }

    /** Cache a frame in hand. */
    method PutTop(x: nat)
      requires Valid() && len < FRAME_MAG_CAP && x < pool.n && pool.place[x] == Hand(t)
      modifies this`len, ptrs, pool`place
      ensures Valid() && Cached() == old(Cached()) + [x] && pool.place == old(pool.place)[x := Cache(t)]
    {
      ghost var xs := ptrs[..len];
      HoldsPush(xs, pool.place, x, Cache(t));
      pool.Shift(x, Cache(t));
      ptrs[len] := x;
      len := len + 1;
      assert ptrs[..len] == xs + [x];
    }

    /** One more frame from the pool into the cache, unless it gives none. */
    method PullOne(cpu: nat) returns (more: bool)
      requires Valid() && cpu < pool.cpus && len < FRAME_MAG_CAP
      modifies this`len, ptrs, pool`top, pool`slabs, pool`place, pool.slots, pool.refs
      ensures Valid() && HandsSame(t, old(pool.place), pool.place)
      ensures if more then |Cached()| == |old(Cached())| + 1 && Cached()[..|old(Cached())|] == old(Cached())
              else Cached() == old(Cached()) && pool.CentralStack() == []
      ensures pool.alone ==> pool.refs[..] == old(pool.refs[..]) && OnlyCpu(old(pool.slabs), pool.slabs, cpu)
      ensures pool.alone ==> pool.StacksOf(cpu) == Popped(old(pool.StacksOf(cpu)))
      ensures pool.alone ==> Top(old(pool.StacksOf(cpu))) == if more then Some(Cached()[|old(Cached())|]) else None
    {
      hide StacksOk, RefsOk, FramePool.Pinned, OnlyCpu, Refilled, Popped, Top;
      var p := pool.PopL2(t, cpu);
      more := p.Some?;
      if more {
        PutTop(p.value);
      }
    }

    /** The cache holds the first `len` frames that pops from `z` give. */
    ghost predicate Pulled(cpu: nat, z: Stacks)
      requires pool.Shape() && cpu < pool.cpus && len <= ptrs.Length
      reads this, ptrs, pool, pool.slots
    {
      Cached() == Tops(z, len) && pool.StacksOf(cpu) == PoppedAll(z, len)
    }

    /** Pull frames from the pool until the cache holds 16 or the pool gives no more, then take one. */
    method Refill(cpu: nat) returns (r: Option<nat>)
      requires Valid() && cpu < pool.cpus && len == 0
      modifies this`len, ptrs, pool`top, pool`slabs, pool`place, pool.slots, pool.refs
      ensures Valid() && len < FRAME_MAG_CAP / 2
      ensures if r.None? then Cached() == [] && pool.CentralStack() == [] && HandsSame(t, old(pool.place), pool.place)
              else r.value < pool.n && pool.place[r.value] == Hand(t) && HandsGain(t, old(pool.place), pool.place, r.value)
      ensures r.Some? && len + 1 < FRAME_MAG_CAP / 2 ==> pool.CentralStack() == []
      ensures pool.alone ==> pool.refs[..] == old(pool.refs[..]) && OnlyCpu(old(pool.slabs), pool.slabs, cpu)
      ensures pool.alone ==> (r.None? <==> old(pool.slabs[cpu]) == [] && old(pool.CentralStack()) == [])
      ensures pool.alone ==> Cached() + (if r.Some? then [r.value] else []) == Tops(old(pool.StacksOf(cpu)), FRAME_MAG_CAP / 2)
      ensures pool.alone ==> pool.StacksOf(cpu) == PoppedAll(old(pool.StacksOf(cpu)), FRAME_MAG_CAP / 2)
    {
      hide StacksOk, RefsOk, FramePool.Pinned, Popped, Top;
      ghost var z := pool.StacksOf(cpu);
      var more := true;
      while len < FRAME_MAG_CAP / 2 && more
        invariant Valid() && len <= FRAME_MAG_CAP / 2 && HandsSame(t, old(pool.place), pool.place)
        invariant pool.alone ==> pool.refs[..] == old(pool.refs[..]) && OnlyCpu(old(pool.slabs), pool.slabs, cpu) && Pulled(cpu, z)
        invariant !more ==> pool.CentralStack() == [] && (pool.alone ==> Top(PoppedAll(z, len)) == None)
        decreases FRAME_MAG_CAP / 2 - len, more
      {
        ghost var xs, k := Cached(), len;
        more := PullOne(cpu);
        if pool.alone {
          if more {
            TopsMore(z, k);
            assert Cached() == xs + [Cached()[k]];
          } else {
            Dry(z, k, k + 1);
          }
        }
      }
      if pool.alone {
        if !more { Dry(z, len, FRAME_MAG_CAP / 2); }
        TopsEmpty(z, FRAME_MAG_CAP / 2);
      }
      if len == 0 {
        return None;
      }
      var x := TakeTop();
      return Some(x);
    }

    /** A fresh frame: off the cache if it holds one, else by way of a refill. */
    method Alloc(cpu: nat) returns (r: Option<nat>)
      requires Valid() && cpu < pool.cpus
      modifies this`len, ptrs, pool`top, pool`slabs, pool`place, pool`pinned, pool.slots, pool.refs
      ensures Valid() && HandsSame(t, old(pool.place), pool.place)
      ensures r.None? ==> old(len) == 0 && Cached() == [] && pool.CentralStack() == [] && pool.pinned == old(pool.pinned)
      ensures r.Some? ==> r.value < pool.n && pool.place[r.value] == Live && pool.refs[r.value] == 1
      ensures r.Some? ==> r.value !in old(pool.pinned) && pool.pinned == old(pool.pinned) + multiset{r.value}
      ensures old(len) > 0 ==> r.Some? && Cached() + [r.value] == old(Cached())
      ensures pool.alone ==> MoreBy(pool.refs[..], old(pool.refs[..]), if r.Some? then multiset{r.value} else multiset{})
      ensures pool.alone ==> OnlyCpu(old(pool.slabs), pool.slabs, cpu)
      ensures pool.alone && old(len) > 0 ==> pool.slabs == old(pool.slabs) && pool.CentralStack() == old(pool.CentralStack())
      ensures pool.alone ==> (r.None? <==> old(len) == 0 && old(pool.slabs[cpu]) == [] && old(pool.CentralStack()) == [])
      ensures pool.alone && old(len) == 0 ==>
                && Cached() + (if r.Some? then [r.value] else []) == Tops(old(pool.StacksOf(cpu)), FRAME_MAG_CAP / 2)
                && pool.StacksOf(cpu) == PoppedAll(old(pool.StacksOf(cpu)), FRAME_MAG_CAP / 2)
    {
      hide StacksOk, RefsOk, FramePool.Pinned, Refilled;
      var x;
      if len > 0 {
        x := TakeTop();
      } else {
        r := Refill(cpu);
        if r.None? {
          return;
        }
        x := r.value;
      }
      ghost var p1 := pool.place;
      pool.Claim(t, x);
      HoldsElsewhere(ptrs[..len], p1, x, Live, Cache(t));
      return Some(x);
    }

    /** Return a dead frame in hand to the cache, or when that is full flush its top half to the pool first. */
    method Recycle(cpu: nat, x: nat)
      requires Valid() && cpu < pool.cpus && x < pool.n && pool.place[x] == Hand(t)
      modifies this`len, ptrs, pool`top, pool`slabs, pool`place, pool.slots, pool.refs
      ensures Valid() && HandsGain(t, pool.place, old(pool.place), x)
      ensures Cached() == (if old(len) < FRAME_MAG_CAP then old(Cached()) else old(Cached())[..FRAME_MAG_CAP / 2]) + [x]
      ensures pool.alone ==> pool.refs[..] == old(pool.refs[..])
      ensures pool.alone ==> OnlyCpu(old(pool.slabs), pool.slabs, cpu)
      ensures pool.alone && old(len) < FRAME_MAG_CAP ==> pool.StacksOf(cpu) == old(pool.StacksOf(cpu))
      ensures pool.alone && old(len) == FRAME_MAG_CAP ==>
                pool.StacksOf(cpu) == PushedAll(old(pool.StacksOf(cpu)), Reversed(old(Cached())[FRAME_MAG_CAP / 2..]))
    {
      if len == FRAME_MAG_CAP {
        Flush(cpu, FRAME_MAG_CAP / 2, {x});
      }
      PutTop(x);
    }

    /** Push the top cached frame to the pool. */
    method FlushOne(cpu: nat)
      requires Valid() && cpu < pool.cpus && len > 0
      modifies this`len, pool`top, pool`slabs, pool`place, pool.slots, pool.refs
      ensures Valid() && HandsSame(t, old(pool.place), pool.place) && Cached() == old(Cached())[..|old(Cached())| - 1]
      ensures pool.alone ==> pool.refs[..] == old(pool.refs[..]) && OnlyCpu(old(pool.slabs), pool.slabs, cpu)
      ensures pool.alone ==> pool.StacksOf(cpu) == Pushed(old(pool.StacksOf(cpu)), old(Cached())[|old(Cached())| - 1])
    {
      hide StacksOk, RefsOk, FramePool.Pinned, OnlyCpu, Drained, Pushed;
      var x := TakeTop();
      pool.PushL2(t, cpu, x);
    }

    /** Push cached frames to the pool, top first, until `keep` are left. */
    method Flush(cpu: nat, keep: nat, ghost hands: set<nat>)
      requires Valid() && cpu < pool.cpus && keep <= len && forall y | y in hands :: y < pool.n && pool.place[y] == Hand(t)
      modifies this`len, pool`top, pool`slabs, pool`place, pool.slots, pool.refs
      ensures Valid() && HandsSame(t, old(pool.place), pool.place) && Cached() == old(Cached())[..keep]
      ensures forall y | y in hands :: y < pool.n && pool.place[y] == Hand(t)
      ensures pool.alone ==> pool.refs[..] == old(pool.refs[..])
      ensures pool.alone ==> OnlyCpu(old(pool.slabs), pool.slabs, cpu)
      ensures pool.alone ==> pool.StacksOf(cpu) == PushedAll(old(pool.StacksOf(cpu)), Reversed(old(Cached())[keep..]))
    {
      hide StacksOk, RefsOk, FramePool.Pinned, Pushed;
      ghost var z, xs := pool.StacksOf(cpu), Cached();
      while len > keep
        invariant Valid() && keep <= len <= old(len) && HandsSame(t, old(pool.place), pool.place)
        invariant Cached() == xs[..len]
        invariant pool.alone ==> pool.refs[..] == old(pool.refs[..]) && OnlyCpu(old(pool.slabs), pool.slabs, cpu)
        invariant pool.alone ==> pool.StacksOf(cpu) == PushedAll(z, Reversed(xs[len..]))
        decreases len
      {
        PushedMore(z, xs, len);
        assert xs[..len][..len - 1] == xs[..len - 1];
        FlushOne(cpu);
      }
    }

    /** Release a reference; with the last one the frame goes to the cache. */
    method Free(cpu: nat, f: nat) returns (last: bool)
      requires Valid() && cpu < pool.cpus && f in pool.pinned
      modifies this`len, ptrs, pool`top, pool`slabs, pool`place, pool`pinned, pool.slots, pool.refs
      ensures Valid() && HandsSame(t, old(pool.place), pool.place) && pool.pinned == old(pool.pinned) - multiset{f}
      ensures last <==> old(pool.refs[f]) == 1
      ensures !last ==> Cached() == old(Cached()) && pool.place == old(pool.place) && pool.refs[..] == old(pool.refs[..])[f := old(pool.refs[f]) - 1]
      ensures last ==> Cached() == (if old(len) < FRAME_MAG_CAP then old(Cached()) else old(Cached())[..FRAME_MAG_CAP / 2]) + [f]
      ensures pool.alone ==> MoreBy(old(pool.refs[..]), pool.refs[..], multiset{f})
      ensures pool.alone ==> OnlyCpu(old(pool.slabs), pool.slabs, cpu)
      ensures pool.alone && (!last || old(len) < FRAME_MAG_CAP) ==> pool.StacksOf(cpu) == old(pool.StacksOf(cpu))
      ensures pool.alone && last && old(len) == FRAME_MAG_CAP ==>
                pool.StacksOf(cpu) == PushedAll(old(pool.StacksOf(cpu)), Reversed(old(Cached())[FRAME_MAG_CAP / 2..]))
    {
      ghost var p0 := pool.place;
      pool.pinned := pool.pinned - multiset{f};
      last := pool.OnFree(t, f);
      if last {
        ghost var p1 := pool.place;
        HoldsElsewhere(ptrs[..len], p0, f, Hand(t), Cache(t));
        Recycle(cpu, f);
        HandsRound(t, p0, p1, pool.place, f);
      }
    }

    /** On drop the cache gives every frame back. */
    method Drop(cpu: nat)
      requires Valid() && cpu < pool.cpus
      modifies this`len, pool`top, pool`slabs, pool`place, pool.slots, pool.refs
      ensures Valid() && Cached() == [] && HandsSame(t, old(pool.place), pool.place)
      ensures pool.alone ==> pool.refs[..] == old(pool.refs[..])
      ensures pool.alone ==> OnlyCpu(old(pool.slabs), pool.slabs, cpu)
      ensures pool.alone ==> pool.StacksOf(cpu) == PushedAll(old(pool.StacksOf(cpu)), Reversed(old(Cached())))
      ensures forall x: nat | x < pool.n :: pool.place[x] != Cache(t)
    {
      Flush(cpu, 0, {});
      forall x: nat | x < pool.n ensures pool.place[x] != Cache(t) {
        assert x in Cached() <==> x < |pool.place| && pool.place[x] == Cache(t);
      }
    }
  }

  lemma RefilledFromOne(c0: seq<nat>, s0: seq<nat>, c1: seq<nat>, s1: seq<nat>, x: nat, batch: nat)
    requires |c0| == 1 && Refilled(c0, s0, c1, s1, x, batch)
    ensures c1 == [] && x == c0[0] && s1 == s0
  {
  }

  /** `None` from an allocation does not mean that every frame is taken: with two CPUs and one frame, freed on
      the other CPU, the pool has its frame and this CPU is given none. */
  method StrandedExample() returns (pool: FramePool, r: Option<nat>)
    ensures r == None && pool.Valid() && pool.n == 1 && pool.pinned == multiset{} && pool.slabs == [[], [0]]
  {
    hide FramePool.Valid, FramePool.Shape, Same, Drained, MoreBy, Refilled;
    pool := new FramePool(1, 2, true);
    ghost var c0 := pool.CentralStack();
    var x := pool.Alloc(0, 0);
    RefilledFromOne(c0, [], pool.CentralStack(), pool.slabs[0], x.value, BATCH);
    var last := pool.Free(0, 1, x.value);
    r := pool.Alloc(0, 0);
    assert x == Some(0) && last && pool.slabs[1] == [0] && pool.slabs[0] == [];
  }
}
