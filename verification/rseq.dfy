/** Per-CPU stacks, one step an instruction. */
module Rseq {
  // The stacks are written by restartable sequences, and a supervisor seizes a CPU to edit its stacks directly.
  // Every instruction that the kernel can separate from the next is a step of its own; the kernel preempts,
  // migrates and aborts as it likes.

  import opened Words
  import opened Places

  type Ptr = nat
  type Tid = nat

  /** `registered` threads have a kernel rseq area; the others only ever see an uninitialised CPU id. */
  datatype Config = Config(numCpus: nat, classes: nat, capacity: nat, registered: iset<Tid>)

  datatype Loc = Loc(cpu: nat, cls: nat)

  /** A stack's header and slots. Slots from `current` up hold leftovers. */
  datatype Stack = Stack(slots: seq<Ptr>, current: nat, capacity: nat)

  datatype Op = Pop(cls: nat) | Push(cls: nat, obj: Ptr)

  /** Where a thread is in the sequence, and what its registers hold. From `AtCpuCheck` to `AtCommit` the
      armed section covers it: preemption sends it back to `AtStart`. */
  datatype Pc =
    | Out                                       // not in a call
    | AtStart                                   // label 7: about to read cpu_id_start
    | AtArm(cpu: nat)                           // range and retry checks, then arm
    | AtCpuCheck(cpu: nat)                      // label 2: about to compare with cpu_id
    | AtStopCheck(cpu: nat)
    | AtCurrent(cpu: nat)                       // about to load `current`
    | AtCapacity(cpu: nat, cur: nat)            // push: about to load `capacity` and compare
    | AtSlot(cpu: nat, cur: nat)                // about to load (pop) or store (push) the slot
    | AtCommit(cpu: nat, cur: nat, obj: Ptr)    // about to store `current`

  datatype Outcome = NotYet | Done | NeedsSlow | Fallback

  /** A thread's call: `loops` is the retry register, `out` the outcome of the last call. */
  datatype Thread = Thread(op: Op, pc: Pc, loops: nat, out: Outcome)

  /** The supervisor's progress on one CPU. */
  datatype Seizer =
    | Free
    | Flagged                                          // stop flag stored, barrier not back yet
    | Seized
    | Draining(cls: nat, left: nat)
    | Loaded(cls: nat, left: nat, cur: nat, obj: Ptr)  // slot read, `current` not stored yet
    | Carrying(cls: nat, left: nat, obj: Ptr)          // popped, not deposited yet

  /** Where a pointer can be besides a stack. */
  datatype Where = Hand(t: Tid) | Pushing(t: Tid) | Central | Carried(cpu: nat)

  datatype State = State(
    stacks: map<Loc, Stack>,
    stopped: set<nat>,             // CPUs whose stop flag is set
    running: map<Tid, nat>,        // the scheduler: which CPU a thread is on
    th: map<Tid, Thread>,
    seizer: map<nat, Seizer>,
    at: Layout<Where, Ptr>)

  const LOOPS: nat := 5

  function ThreadOf(s: State, t: Tid): Thread {
    if t in s.th then s.th[t] else Thread(Pop(0), Out, 0, NotYet)
  }

  function SeizerOf(s: State, cpu: nat): Seizer {
    if cpu in s.seizer then s.seizer[cpu] else Free
  }

  /** `cpu_id_start` and `cpu_id` of a running thread. */
  function CpuStart(c: Config, s: State, t: Tid): nat
    requires t in s.running
  {
    if t in c.registered then s.running[t] else 0
  }

  function Locs(c: Config): (r: set<Loc>)
    ensures forall l :: l in r <==> l.cpu < c.numCpus && l.cls < c.classes
  {
    set i: nat, j: nat | i < c.numCpus && j < c.classes :: Loc(i, j)
  }

  function Initial(c: Config, objs: set<Ptr>): State {
    State(map l | l in Locs(c) :: Stack(seq(c.capacity, _ => 0), 0, c.capacity), {}, map[], map[], map[],
          map[Central := objs])
  }

  datatype Action =
    | Call(t: Tid, op: Op)
    | Exec(t: Tid)                             // the thread's next instruction
    | Dispatch(t: Tid, cpu: nat)
    | Preempt(t: Tid)
    | Signal(t: Tid)
    | SetFlag(cpu: nat)
    | Barrier(cpu: nat)
    | BarrierFails(cpu: nat)
    | Rebalance(cpu: nat, cls: nat, count: nat)
    | Supervise(cpu: nat)                      // the supervisor's next load or store
    | Release(cpu: nat)
    | Give(p: Where, q: Where, x: set<Ptr>)    // everything else that moves pointers about

  predicate InSection(p: Pc) {
    p.AtCpuCheck? || OnCpu(p)
  }

  /** The CPU check has passed. */
  predicate OnCpu(p: Pc) {
    p.AtStopCheck? || PastStop(p)
  }

  /** The stop check has passed too. */
  predicate PastStop(p: Pc) {
    p.AtCurrent? || p.AtCapacity? || p.AtSlot? || p.AtCommit?
  }

  predicate Owns(z: Seizer) {
    z.Seized? || z.Draining? || z.Loaded? || z.Carrying?
  }

  function At(s: State, t: Tid, p: Pc): State {
    s.(th := s.th[t := ThreadOf(s, t).(pc := p)])
  }

  function SeizerAt(s: State, cpu: nat, z: Seizer): State {
    s.(seizer := s.seizer[cpu := z])
  }

  /** The kernel restarts a section it interrupts. */
  function Abort(c: Config, s: State, t: Tid): State {
    if t in c.registered && InSection(ThreadOf(s, t).pc) then At(s, t, AtStart) else s
  }

  /** The call returns; an object that was not pushed goes back to the caller. */
  function Return(s: State, t: Tid, out: Outcome): State {
    var th := ThreadOf(s, t);
    s.(th := s.th[t := th.(pc := Out, out := out)],
       at := Move(s.at, Pushing(t), Hand(t), Get(s.at, Pushing(t))))
  }

  function SetCurrent(s: State, l: Loc, cur: nat): State
    requires l in s.stacks
  {
    s.(stacks := s.stacks[l := s.stacks[l].(current := cur)])
  }

  // --- one instruction -----------------------------------------------------------------

  predicate CanExec(c: Config, s: State, t: Tid) {
    var th := ThreadOf(s, t);
    && t in s.running
    && match th.pc
       case Out => false
       case AtStart => true
       case AtArm(_) => true
       case AtCpuCheck(_) => true
       case AtStopCheck(_) => true
       case AtCurrent(cpu) => Loc(cpu, th.op.cls) in s.stacks
       case AtCapacity(cpu, _) => Loc(cpu, th.op.cls) in s.stacks
       case AtSlot(cpu, cur) => Loc(cpu, th.op.cls) in s.stacks && cur < |s.stacks[Loc(cpu, th.op.cls)].slots|
       case AtCommit(cpu, _, _) => Loc(cpu, th.op.cls) in s.stacks
  }

  function Run(c: Config, s: State, t: Tid): State
    requires CanExec(c, s, t)
  {
    var th := ThreadOf(s, t);
    match th.pc
    case AtStart => At(s, t, AtArm(CpuStart(c, s, t)))
    case AtArm(cpu) => Arm(c, s, t, cpu)
    case AtCpuCheck(cpu) =>
      At(s, t, if t in c.registered && s.running[t] == cpu then AtStopCheck(cpu) else AtStart)
    case AtStopCheck(cpu) => if cpu in s.stopped then Return(s, t, Fallback) else At(s, t, AtCurrent(cpu))
    case AtCurrent(cpu) => LoadCurrent(s, t, cpu)
    case AtCapacity(cpu, cur) =>
      if cur >= s.stacks[Loc(cpu, th.op.cls)].capacity then Return(s, t, NeedsSlow) else At(s, t, AtSlot(cpu, cur))
    case AtSlot(cpu, cur) => TouchSlot(s, t, cpu, cur)
    case AtCommit(cpu, cur, obj) => Commit(s, t, cpu, cur, obj)
  }

  function Arm(c: Config, s: State, t: Tid, cpu: nat): State {
    var th := ThreadOf(s, t);
    if cpu >= c.numCpus || th.loops <= 1 then
      Return(s, t, Fallback)
    else
      s.(th := s.th[t := th.(pc := AtCpuCheck(cpu), loops := th.loops - 1)])
  }

  function LoadCurrent(s: State, t: Tid, cpu: nat): State
    requires Loc(cpu, ThreadOf(s, t).op.cls) in s.stacks
  {
    var op := ThreadOf(s, t).op;
    var cur := s.stacks[Loc(cpu, op.cls)].current;
    if op.Push? then At(s, t, AtCapacity(cpu, cur))
    else if cur == 0 then Return(s, t, NeedsSlow)
    else At(s, t, AtSlot(cpu, cur - 1))
  }

  function TouchSlot(s: State, t: Tid, cpu: nat, cur: nat): State
    requires Loc(cpu, ThreadOf(s, t).op.cls) in s.stacks && cur < |s.stacks[Loc(cpu, ThreadOf(s, t).op.cls)].slots|
  {
    var op := ThreadOf(s, t).op;
    var l := Loc(cpu, op.cls);
    if op.Push? then
      At(s.(stacks := s.stacks[l := s.stacks[l].(slots := s.stacks[l].slots[cur := op.obj])]), t,
         AtCommit(cpu, cur, op.obj))
    else
      At(s, t, AtCommit(cpu, cur, s.stacks[l].slots[cur]))
  }

  /** The single committing store. */
  function Commit(s: State, t: Tid, cpu: nat, cur: nat, obj: Ptr): State
    requires Loc(cpu, ThreadOf(s, t).op.cls) in s.stacks
  {
    var th := ThreadOf(s, t);
    var l := Loc(cpu, th.op.cls);
    SetCurrent(s, l, if th.op.Push? then cur + 1 else cur).(
      th := s.th[t := th.(pc := Out, out := Done)],
      at := if th.op.Push? then Drop(s.at, Pushing(t), {obj}) else Put(s.at, Hand(t), {obj}))
  }

  // --- one load or store of the supervisor -----------------------------------------------

  predicate CanSupervise(s: State, cpu: nat) {
    match SeizerOf(s, cpu)
    case Draining(cls, left) =>
      left > 0 ==>
        Loc(cpu, cls) in s.stacks && 0 < s.stacks[Loc(cpu, cls)].current <= |s.stacks[Loc(cpu, cls)].slots|
    case Loaded(cls, left, _, _) => Loc(cpu, cls) in s.stacks
    case Carrying(_, left, _) => left > 0
    case _ => false
  }

  function SuperviseStep(s: State, cpu: nat): State
    requires CanSupervise(s, cpu)
  {
    match SeizerOf(s, cpu)
    case Draining(cls, left) =>
      if left == 0 then SeizerAt(s, cpu, Seized)
      else
        var st := s.stacks[Loc(cpu, cls)];
        SeizerAt(s, cpu, Loaded(cls, left, st.current - 1, st.slots[st.current - 1]))
    case Loaded(cls, left, cur, obj) =>
      SeizerAt(SetCurrent(s, Loc(cpu, cls), cur), cpu, Carrying(cls, left, obj)).(at := Put(s.at, Carried(cpu), {obj}))
    case Carrying(cls, left, obj) =>
      SeizerAt(s, cpu, Draining(cls, left - 1)).(at := Move(s.at, Carried(cpu), Central, {obj}))
  }

  // --- steps ---------------------------------------------------------------------------

  predicate Loose(w: Where) {
    w.Hand? || w.Central?
  }

  ghost predicate Enabled(c: Config, s: State, a: Action) {
    match a
    case Call(t, op) =>
      ThreadOf(s, t).pc == Out && op.cls < c.classes && (op.Push? ==> op.obj in Get(s.at, Hand(t)))
    case Exec(t) => CanExec(c, s, t)
    case Dispatch(t, cpu) => t !in s.running && forall u | u in s.running :: s.running[u] != cpu
    case Preempt(t) => t in s.running
    case Signal(t) => t in s.running
    case SetFlag(cpu) => SeizerOf(s, cpu) == Free && cpu < c.numCpus
    case Barrier(cpu) => SeizerOf(s, cpu) == Flagged
    case BarrierFails(cpu) => SeizerOf(s, cpu) == Flagged
    case Rebalance(cpu, cls, count) => SeizerOf(s, cpu) == Seized && Loc(cpu, cls) in s.stacks
    case Supervise(cpu) => CanSupervise(s, cpu)
    case Release(cpu) => SeizerOf(s, cpu) == Seized
    case Give(p, q, x) => Loose(p) && Loose(q) && p != q && x <= Get(s.at, p)
  }

  function StartCall(s: State, t: Tid, op: Op): State {
    s.(th := s.th[t := Thread(op, AtStart, LOOPS, ThreadOf(s, t).out)],
       at := if op.Push? then Move(s.at, Hand(t), Pushing(t), {op.obj}) else s.at)
  }

  /** The barrier interrupts whatever runs on the CPU. */
  function Interrupt(c: Config, s: State, cpu: nat): State {
    s.(th := map t | t in s.th :: if Interrupted(c, s, t, cpu) then s.th[t].(pc := AtStart) else s.th[t])
  }

  predicate Interrupted(c: Config, s: State, t: Tid, cpu: nat) {
    t in s.running && s.running[t] == cpu && t in c.registered && InSection(ThreadOf(s, t).pc)
  }

  function Least(a: nat, b: nat): nat {
    if a <= b then a else b
  }

  ghost function Apply(c: Config, s: State, a: Action): State
    requires Enabled(c, s, a)
  {
    match a
    case Call(t, op) => StartCall(s, t, op)
    case Exec(t) => Run(c, s, t)
    case Dispatch(t, cpu) => s.(running := s.running[t := cpu])
    case Preempt(t) => Abort(c, s, t).(running := s.running - {t})
    case Signal(t) => Abort(c, s, t)
    case SetFlag(cpu) => SeizerAt(s, cpu, Flagged).(stopped := s.stopped + {cpu})
    case Barrier(cpu) => SeizerAt(Interrupt(c, s, cpu), cpu, Seized)
    case BarrierFails(cpu) => SeizerAt(s, cpu, Free).(stopped := s.stopped - {cpu})
    case Rebalance(cpu, cls, count) => SeizerAt(s, cpu, Draining(cls, Least(count, s.stacks[Loc(cpu, cls)].current)))
    case Supervise(cpu) => SuperviseStep(s, cpu)
    case Release(cpu) => SeizerAt(s, cpu, Free).(stopped := s.stopped - {cpu})
    case Give(p, q, x) => s.(at := Move(s.at, p, q, x))
  }

  // --- the invariant -------------------------------------------------------------------

  ghost predicate StackOk(c: Config, s: State, l: Loc) {
    if l.cpu < c.numCpus && l.cls < c.classes then
      l in s.stacks && s.stacks[l].current <= s.stacks[l].capacity == c.capacity == |s.stacks[l].slots|
    else l !in s.stacks
  }

  /** What a thread's registers say of the stack it is working on. */
  ghost predicate RegistersOk(s: State, th: Thread) {
    match th.pc
    case AtCapacity(cpu, cur) => th.op.Push? && Loc(cpu, th.op.cls) in s.stacks && cur == s.stacks[Loc(cpu, th.op.cls)].current
    case AtSlot(cpu, cur) =>
      && Loc(cpu, th.op.cls) in s.stacks
      && var st := s.stacks[Loc(cpu, th.op.cls)];
      && (if th.op.Push? then cur == st.current < st.capacity else cur + 1 == st.current)
    case AtCommit(cpu, cur, obj) =>
      && Loc(cpu, th.op.cls) in s.stacks
      && var st := s.stacks[Loc(cpu, th.op.cls)];
      && cur < |st.slots| && st.slots[cur] == obj
      && (if th.op.Push? then obj == th.op.obj && cur == st.current < st.capacity else cur + 1 == st.current)
    case _ => true
  }

  /** Which object a thread is pushing. */
  function InFlight(th: Thread): set<Ptr> {
    if th.pc != Out && th.op.Push? then {th.op.obj} else {}
  }

  ghost predicate ThreadOk(c: Config, s: State, t: Tid) {
    var th := ThreadOf(s, t);
    && Get(s.at, Pushing(t)) == InFlight(th)
    && (th.pc != Out ==> th.op.cls < c.classes)
    && (th.pc.AtCpuCheck? ==> th.pc.cpu < c.numCpus)
    && (OnCpu(th.pc) ==> t in c.registered && t in s.running && s.running[t] == th.pc.cpu < c.numCpus)
    && (PastStop(th.pc) ==> !Owns(SeizerOf(s, th.pc.cpu)))
    && RegistersOk(s, th)
  }

  ghost predicate SeizerOk(c: Config, s: State, cpu: nat) {
    var z := SeizerOf(s, cpu);
    && (z != Free <==> cpu in s.stopped) && (z != Free ==> cpu < c.numCpus)
    && Get(s.at, Carried(cpu)) == (if z.Carrying? then {z.obj} else {})
    && match z
       case Draining(cls, left) => Loc(cpu, cls) in s.stacks && left <= s.stacks[Loc(cpu, cls)].current
       case Loaded(cls, left, cur, obj) =>
         && Loc(cpu, cls) in s.stacks
         && var st := s.stacks[Loc(cpu, cls)];
         && 0 < left <= st.current && cur + 1 == st.current && cur < |st.slots| && st.slots[cur] == obj
       case Carrying(cls, left, _) => Loc(cpu, cls) in s.stacks && 0 < left <= s.stacks[Loc(cpu, cls)].current + 1
       case _ => true
  }

  /** At most one thread runs on a CPU. */
  ghost predicate OnePerCpu(running: map<Tid, nat>) {
    forall t, u | t in running && u in running && running[t] == running[u] :: t == u
  }

  ghost predicate Inv(c: Config, s: State) {
    && OnePerCpu(s.running)
    && (forall l :: StackOk(c, s, l))
    && (forall t :: ThreadOk(c, s, t))
    && (forall cpu :: SeizerOk(c, s, cpu))
  }

  /** A step of one thread that leaves every stack and every other pointer place alone. */
  lemma ThreadStep(c: Config, s: State, s2: State, t: Tid)
    requires Inv(c, s) && s2 == s.(th := s2.th, at := s2.at)
    requires forall u | u != t :: ThreadOf(s2, u) == ThreadOf(s, u)
    requires forall w | w != Pushing(t) && !Loose(w) :: Get(s2.at, w) == Get(s.at, w)
    requires ThreadOk(c, s2, t)
    ensures Inv(c, s2)
  {
    forall l ensures StackOk(c, s2, l) { assert StackOk(c, s, l); }
    forall u ensures ThreadOk(c, s2, u) { assert ThreadOk(c, s, u); }
    forall cpu ensures SeizerOk(c, s2, cpu) { assert SeizerOk(c, s, cpu); }
  }

  /** Nobody else's registers or plans speak of a stack that thread `t` is past the stop check on. */
  lemma WriterAlone(c: Config, s: State, t: Tid, u: Tid)
    requires Inv(c, s) && PastStop(ThreadOf(s, t).pc)
    ensures OnCpu(ThreadOf(s, u).pc) && ThreadOf(s, u).pc.cpu == ThreadOf(s, t).pc.cpu ==> u == t
    ensures !Owns(SeizerOf(s, ThreadOf(s, t).pc.cpu))
  {
    assert ThreadOk(c, s, t) && ThreadOk(c, s, u);
  }

  /** A step of one thread that writes the stack it is past the stop check on. */
  lemma WriterStep(c: Config, s: State, s2: State, t: Tid, l: Loc)
    requires Inv(c, s) && PastStop(ThreadOf(s, t).pc) && ThreadOf(s, t).pc.cpu == l.cpu && l in s2.stacks
    requires s2 == s.(th := s2.th, at := s2.at, stacks := s.stacks[l := s2.stacks[l]])
    requires forall u | u != t :: ThreadOf(s2, u) == ThreadOf(s, u)
    requires forall w | w != Pushing(t) && !Loose(w) :: Get(s2.at, w) == Get(s.at, w)
    requires ThreadOk(c, s2, t) && StackOk(c, s2, l)
    ensures Inv(c, s2)
  {
    forall k ensures StackOk(c, s2, k) { assert StackOk(c, s, k); }
    forall u ensures ThreadOk(c, s2, u) {
      assert ThreadOk(c, s, u);
      WriterAlone(c, s, t, u);
    }
    WriterAlone(c, s, t, t);
    forall cpu ensures SeizerOk(c, s2, cpu) { assert SeizerOk(c, s, cpu); }
  }

  lemma ReturnKeeps(c: Config, s: State, t: Tid, out: Outcome)
    requires Inv(c, s)
    ensures Inv(c, Return(s, t, out))
  {
    var s2 := Return(s, t, out);
    assert ThreadOk(c, s, t);
    GetMove(s.at, Pushing(t), Hand(t), Get(s.at, Pushing(t)));
    ThreadStep(c, s, s2, t);
  }

  lemma AtKeeps(c: Config, s: State, t: Tid, p: Pc)
    requires Inv(c, s) && ThreadOf(s, t).pc != Out && p != Out && ThreadOk(c, At(s, t, p), t)
    ensures Inv(c, At(s, t, p))
  {
    ThreadStep(c, s, At(s, t, p), t);
  }

  lemma AbortKeeps(c: Config, s: State, t: Tid)
    requires Inv(c, s)
    ensures Inv(c, Abort(c, s, t)) && !OnCpu(ThreadOf(Abort(c, s, t), t).pc)
  {
    assert ThreadOk(c, s, t);
    if t in c.registered && InSection(ThreadOf(s, t).pc) {
      AtKeeps(c, s, t, AtStart);
    }
  }

  lemma CallKeeps(c: Config, s: State, t: Tid, op: Op)
    requires Inv(c, s) && Enabled(c, s, Call(t, op))
    ensures Inv(c, Apply(c, s, Call(t, op)))
  {
    assert ThreadOk(c, s, t);
    if op.Push? { GetMove(s.at, Hand(t), Pushing(t), {op.obj}); }
    ThreadStep(c, s, StartCall(s, t, op), t);
  }

  lemma ArmKeeps(c: Config, s: State, t: Tid)
    requires Inv(c, s) && CanExec(c, s, t) && (ThreadOf(s, t).pc.AtStart? || ThreadOf(s, t).pc.AtArm?)
    ensures Inv(c, Run(c, s, t))
  {
    var th := ThreadOf(s, t);
    assert ThreadOk(c, s, t);
    if th.pc.AtStart? {
      AtKeeps(c, s, t, AtArm(CpuStart(c, s, t)));
    } else if th.pc.cpu >= c.numCpus || th.loops <= 1 {
      ReturnKeeps(c, s, t, Fallback);
    } else {
      ThreadStep(c, s, Run(c, s, t), t);
    }
  }

  lemma CheckKeeps(c: Config, s: State, t: Tid)
    requires Inv(c, s) && CanExec(c, s, t) && (ThreadOf(s, t).pc.AtCpuCheck? || ThreadOf(s, t).pc.AtStopCheck?)
    ensures Inv(c, Run(c, s, t))
  {
    var th := ThreadOf(s, t);
    assert ThreadOk(c, s, t);
    if th.pc.AtCpuCheck? {
      AtKeeps(c, s, t, if t in c.registered && s.running[t] == th.pc.cpu then AtStopCheck(th.pc.cpu) else AtStart);
    } else if th.pc.cpu in s.stopped {
      ReturnKeeps(c, s, t, Fallback);
    } else {
      assert SeizerOk(c, s, th.pc.cpu);
      AtKeeps(c, s, t, AtCurrent(th.pc.cpu));
    }
  }

  lemma LoadKeeps(c: Config, s: State, t: Tid)
    requires Inv(c, s) && CanExec(c, s, t) && (ThreadOf(s, t).pc.AtCurrent? || ThreadOf(s, t).pc.AtCapacity?)
    ensures Inv(c, Run(c, s, t))
  {
    var th := ThreadOf(s, t);
    assert ThreadOk(c, s, t);
    var s2 := Run(c, s, t);
    if ThreadOf(s2, t).pc == Out {
      ReturnKeeps(c, s, t, NeedsSlow);
    } else {
      AtKeeps(c, s, t, ThreadOf(s2, t).pc);
    }
  }

  lemma SlotKeeps(c: Config, s: State, t: Tid)
    requires Inv(c, s) && CanExec(c, s, t) && ThreadOf(s, t).pc.AtSlot?
    ensures Inv(c, Run(c, s, t))
  {
    var th := ThreadOf(s, t);
    assert ThreadOk(c, s, t);
    var l := Loc(th.pc.cpu, th.op.cls);
    assert StackOk(c, s, l);
    var s2 := Run(c, s, t);
    if th.op.Push? {
      WriterStep(c, s, s2, t, l);
    } else {
      AtKeeps(c, s, t, ThreadOf(s2, t).pc);
    }
  }

  lemma CommitKeeps(c: Config, s: State, t: Tid)
    requires Inv(c, s) && CanExec(c, s, t) && ThreadOf(s, t).pc.AtCommit?
    ensures Inv(c, Run(c, s, t))
  {
    var th := ThreadOf(s, t);
    assert ThreadOk(c, s, t);
    var l := Loc(th.pc.cpu, th.op.cls);
    assert StackOk(c, s, l);
    var s2 := Run(c, s, t);
    assert th.op.Push? ==> {th.op.obj} - {th.op.obj} == {};
    assert Get(s2.at, Pushing(t)) == {};
    WriterStep(c, s, s2, t, l);
  }

  lemma ExecKeeps(c: Config, s: State, t: Tid)
    requires Inv(c, s) && Enabled(c, s, Exec(t))
    ensures Inv(c, Apply(c, s, Exec(t)))
  {
    match ThreadOf(s, t).pc
    case AtStart => ArmKeeps(c, s, t);
    case AtArm(_) => ArmKeeps(c, s, t);
    case AtCpuCheck(_) => CheckKeeps(c, s, t);
    case AtStopCheck(_) => CheckKeeps(c, s, t);
    case AtCurrent(_) => LoadKeeps(c, s, t);
    case AtCapacity(_, _) => LoadKeeps(c, s, t);
    case AtSlot(_, _) => SlotKeeps(c, s, t);
    case AtCommit(_, _, _) => CommitKeeps(c, s, t);
  }

  lemma ScheduleKeeps(c: Config, s: State, a: Action)
    requires Inv(c, s) && Enabled(c, s, a) && (a.Dispatch? || a.Preempt? || a.Signal?)
    ensures Inv(c, Apply(c, s, a))
  {
    if !a.Dispatch? { AbortKeeps(c, s, a.t); }
    if a.Signal? { return; }
    var s2, s1 := Apply(c, s, a), if a.Dispatch? then s else Abort(c, s, a.t);
    forall l ensures StackOk(c, s2, l) { assert StackOk(c, s1, l); }
    forall u ensures ThreadOk(c, s2, u) { assert ThreadOk(c, s1, u); }
    forall cpu ensures SeizerOk(c, s2, cpu) { assert SeizerOk(c, s1, cpu); }
  }

  /** A step of the supervisor on one CPU that no writer is past the stop check on. */
  lemma SeizerStep(c: Config, s: State, s2: State, cpu: nat)
    requires Inv(c, s) && s2 == s.(seizer := s2.seizer, stopped := s2.stopped, stacks := s2.stacks, at := s2.at)
    requires forall i | i != cpu :: SeizerOf(s2, i) == SeizerOf(s, i) && (i in s2.stopped <==> i in s.stopped)
    requires forall w | w != Carried(cpu) && !Loose(w) :: Get(s2.at, w) == Get(s.at, w)
    requires SeizerOk(c, s2, cpu)
    requires Owns(SeizerOf(s2, cpu)) || s2.stacks != s.stacks ==> forall u | PastStop(ThreadOf(s, u).pc) :: ThreadOf(s, u).pc.cpu != cpu
    requires forall l :: StackOk(c, s2, l)
    requires forall l | l in s.stacks && l.cpu != cpu :: l in s2.stacks && s2.stacks[l] == s.stacks[l]
    ensures Inv(c, s2)
  {
    forall u ensures ThreadOk(c, s2, u) { assert ThreadOk(c, s, u); }
    forall i ensures SeizerOk(c, s2, i) { assert SeizerOk(c, s, i); }
  }

  lemma NoWriter(c: Config, s: State, cpu: nat)
    requires Inv(c, s) && Owns(SeizerOf(s, cpu))
    ensures forall u | PastStop(ThreadOf(s, u).pc) :: ThreadOf(s, u).pc.cpu != cpu
  {
    forall u | PastStop(ThreadOf(s, u).pc) ensures ThreadOf(s, u).pc.cpu != cpu {
      assert ThreadOk(c, s, u);
    }
  }

  lemma FlagKeeps(c: Config, s: State, a: Action)
    requires Inv(c, s) && Enabled(c, s, a) && (a.SetFlag? || a.BarrierFails? || a.Release?)
    ensures Inv(c, Apply(c, s, a))
  {
    assert SeizerOk(c, s, a.cpu);
    forall l ensures StackOk(c, Apply(c, s, a), l) { assert StackOk(c, s, l); }
    SeizerStep(c, s, Apply(c, s, a), a.cpu);
  }

  lemma RebalanceKeeps(c: Config, s: State, a: Action)
    requires Inv(c, s) && Enabled(c, s, a) && a.Rebalance?
    ensures Inv(c, Apply(c, s, a))
  {
    assert SeizerOk(c, s, a.cpu);
    forall l ensures StackOk(c, Apply(c, s, a), l) { assert StackOk(c, s, l); }
    NoWriter(c, s, a.cpu);
    SeizerStep(c, s, Apply(c, s, a), a.cpu);
  }

  /** The barrier sends the one thread that may be in a section of this CPU back to its start. */
  lemma InterruptKeeps(c: Config, s: State, cpu: nat)
    requires Inv(c, s)
    ensures Inv(c, Interrupt(c, s, cpu))
    ensures forall u | PastStop(ThreadOf(Interrupt(c, s, cpu), u).pc) :: ThreadOf(Interrupt(c, s, cpu), u).pc.cpu != cpu
  {
    var s2 := Interrupt(c, s, cpu);
    forall l ensures StackOk(c, s2, l) { assert StackOk(c, s, l); }
    forall u ensures ThreadOk(c, s2, u) && (PastStop(ThreadOf(s2, u).pc) ==> ThreadOf(s2, u).pc.cpu != cpu) {
      assert ThreadOk(c, s, u);
      assert ThreadOf(s2, u) == if Interrupted(c, s, u, cpu) then ThreadOf(s, u).(pc := AtStart) else ThreadOf(s, u);
    }
    forall i ensures SeizerOk(c, s2, i) { assert SeizerOk(c, s, i); }
  }

  lemma BarrierKeeps(c: Config, s: State, cpu: nat)
    requires Inv(c, s) && Enabled(c, s, Barrier(cpu))
    ensures Inv(c, Apply(c, s, Barrier(cpu)))
  {
    var s1 := Interrupt(c, s, cpu);
    InterruptKeeps(c, s, cpu);
    assert SeizerOk(c, s1, cpu);
    var s2 := SeizerAt(s1, cpu, Seized);
    forall l ensures StackOk(c, s2, l) { assert StackOk(c, s1, l); }
    SeizerStep(c, s1, s2, cpu);
  }

  lemma SuperviseKeeps(c: Config, s: State, cpu: nat)
    requires Inv(c, s) && Enabled(c, s, Supervise(cpu))
    ensures Inv(c, Apply(c, s, Supervise(cpu)))
  {
    var s2, z := SuperviseStep(s, cpu), SeizerOf(s, cpu);
    assert SeizerOk(c, s, cpu);
    forall l ensures StackOk(c, s2, l) { assert StackOk(c, s, l); }
    NoWriter(c, s, cpu);
    if z.Carrying? {
      GetMove(s.at, Carried(cpu), Central, {z.obj});
      assert {z.obj} - {z.obj} == {};
    } else if z.Loaded? {
      assert {} + {z.obj} == {z.obj};
    }
    SeizerStep(c, s, s2, cpu);
  }

  lemma GiveKeeps(c: Config, s: State, a: Action)
    requires Inv(c, s) && Enabled(c, s, a) && a.Give?
    ensures Inv(c, Apply(c, s, a))
  {
    var s2 := Apply(c, s, a);
    forall w | !Loose(w) ensures Get(s2.at, w) == Get(s.at, w) {
    }
    forall l ensures StackOk(c, s2, l) { assert StackOk(c, s, l); }
    forall u ensures ThreadOk(c, s2, u) { assert ThreadOk(c, s, u); }
    forall cpu ensures SeizerOk(c, s2, cpu) { assert SeizerOk(c, s, cpu); }
  }

  lemma StepKeepsInv(c: Config, s: State, a: Action)
    requires Inv(c, s) && Enabled(c, s, a)
    ensures Inv(c, Apply(c, s, a))
  {
    match a
    case Call(t, op) => CallKeeps(c, s, t, op);
    case Exec(t) => ExecKeeps(c, s, t);
    case Dispatch(_, _) => ScheduleKeeps(c, s, a);
    case Preempt(_) => ScheduleKeeps(c, s, a);
    case Signal(_) => ScheduleKeeps(c, s, a);
    case SetFlag(_) => FlagKeeps(c, s, a);
    case Barrier(cpu) => BarrierKeeps(c, s, cpu);
    case BarrierFails(_) => FlagKeeps(c, s, a);
    case Rebalance(_, _, _) => RebalanceKeeps(c, s, a);
    case Supervise(cpu) => SuperviseKeeps(c, s, cpu);
    case Release(_) => FlagKeeps(c, s, a);
    case Give(_, _, _) => GiveKeeps(c, s, a);
  }

  /** A call that is running can always execute its next instruction, and a drain its next step: no
      load or store falls outside the slots. */
  lemma NeverStuck(c: Config, s: State, t: Tid, cpu: nat)
    requires Inv(c, s)
    ensures t in s.running && ThreadOf(s, t).pc != Out ==> Enabled(c, s, Exec(t))
    ensures Owns(SeizerOf(s, cpu)) && SeizerOf(s, cpu) != Seized ==> Enabled(c, s, Supervise(cpu))
  {
    assert ThreadOk(c, s, t) && SeizerOk(c, s, cpu);
    var th := ThreadOf(s, t);
    if OnCpu(th.pc) {
      assert StackOk(c, s, Loc(th.pc.cpu, th.op.cls));
    }
    var z := SeizerOf(s, cpu);
    if z.Draining? { assert StackOk(c, s, Loc(cpu, z.cls)); }
  }

  // --- the stack it implements -----------------------------------------------------------

  /** The pointers on a stack, bottom first. */
  function Content(st: Stack): seq<Ptr> {
    if st.current <= |st.slots| then st.slots[..st.current] else st.slots
  }

  /** The simple machine: per-CPU last-in first-out stacks, one atomic step an operation. */
  datatype Simple = Simple(stacks: map<Loc, seq<Ptr>>, at: Layout<Where, Ptr>)

  datatype Atomic =
    | Skip
    | Transfer(p: Where, q: Where, some: set<Ptr>)
    | PushTo(t: Tid, l: Loc, x: Ptr)
    | PopFrom(t: Tid, l: Loc, x: Ptr)
    | TakeFrom(l: Loc, x: Ptr)                 // by the supervisor

  predicate Can(c: Config, m: Simple, b: Atomic) {
    match b
    case Skip => true
    case Transfer(p, q, x) => x <= Get(m.at, p) && p != q
    case PushTo(t, l, x) => l in m.stacks && |m.stacks[l]| < c.capacity && Get(m.at, Pushing(t)) == {x}
    case PopFrom(_, l, x) => l in m.stacks && m.stacks[l] != [] && m.stacks[l][|m.stacks[l]| - 1] == x
    case TakeFrom(l, x) => l in m.stacks && m.stacks[l] != [] && m.stacks[l][|m.stacks[l]| - 1] == x
  }

  function Do(c: Config, m: Simple, b: Atomic): Simple
    requires Can(c, m, b)
  {
    match b
    case Skip => m
    case Transfer(p, q, x) => m.(at := Move(m.at, p, q, x))
    case PushTo(t, l, x) => Simple(m.stacks[l := m.stacks[l] + [x]], Drop(m.at, Pushing(t), {x}))
    case PopFrom(t, l, x) => Simple(m.stacks[l := m.stacks[l][..|m.stacks[l]| - 1]], Put(m.at, Hand(t), {x}))
    case TakeFrom(l, x) => Simple(m.stacks[l := m.stacks[l][..|m.stacks[l]| - 1]], Put(m.at, Carried(l.cpu), {x}))
  }

  function Abs(s: State): Simple {
    Simple(map l | l in s.stacks :: Content(s.stacks[l]), s.at)
  }

  /** The atomic step that a concrete step amounts to: the commit store is the whole operation, every
      other instruction of a call leaves the stacks as they are. */
  ghost function Meaning(c: Config, s: State, a: Action): Atomic
    requires Enabled(c, s, a)
  {
    match a
    case Call(t, op) => if op.Push? then Transfer(Hand(t), Pushing(t), {op.obj}) else Skip
    case Exec(t) => ExecMeaning(c, s, t)
    case Supervise(cpu) =>
      var z := SeizerOf(s, cpu);
      if z.Loaded? then TakeFrom(Loc(cpu, z.cls), z.obj)
      else if z.Carrying? then Transfer(Carried(cpu), Central, {z.obj})
      else Skip
    case Give(p, q, x) => Transfer(p, q, x)
    case _ => Skip
  }

  function ExecMeaning(c: Config, s: State, t: Tid): Atomic
    requires CanExec(c, s, t)
  {
    var th := ThreadOf(s, t);
    if th.pc.AtCommit? then
      if th.op.Push? then PushTo(t, Loc(th.pc.cpu, th.op.cls), th.pc.obj) else PopFrom(t, Loc(th.pc.cpu, th.op.cls), th.pc.obj)
    else if ThreadOf(Run(c, s, t), t).pc == Out then Transfer(Pushing(t), Hand(t), Get(s.at, Pushing(t)))
    else Skip
  }

  lemma CommitRefines(c: Config, s: State, t: Tid)
    requires Inv(c, s) && CanExec(c, s, t) && ThreadOf(s, t).pc.AtCommit?
    ensures Can(c, Abs(s), ExecMeaning(c, s, t)) && Abs(Run(c, s, t)) == Do(c, Abs(s), ExecMeaning(c, s, t))
  {
    var th := ThreadOf(s, t);
    assert ThreadOk(c, s, t);
    var l := Loc(th.pc.cpu, th.op.cls);
    assert StackOk(c, s, l);
    var s2 := Run(c, s, t);
    var st := s.stacks[l];
    if th.op.Push? {
      assert Content(s2.stacks[l]) == Content(st) + [th.pc.obj];
    } else {
      assert Content(s2.stacks[l]) == Content(st)[..|Content(st)| - 1];
    }
    assert Abs(s2).stacks == Do(c, Abs(s), ExecMeaning(c, s, t)).stacks;
  }

  lemma ExecRefines(c: Config, s: State, t: Tid)
    requires Inv(c, s) && CanExec(c, s, t)
    ensures Can(c, Abs(s), ExecMeaning(c, s, t)) && Abs(Run(c, s, t)) == Do(c, Abs(s), ExecMeaning(c, s, t))
  {
    var th := ThreadOf(s, t);
    assert ThreadOk(c, s, t);
    if th.pc.AtCommit? {
      CommitRefines(c, s, t);
    } else {
      if th.pc.AtSlot? { assert StackOk(c, s, Loc(th.pc.cpu, th.op.cls)); }
    }
  }

  lemma SuperviseRefines(c: Config, s: State, cpu: nat)
    requires Inv(c, s) && Enabled(c, s, Supervise(cpu))
    ensures var b := Meaning(c, s, Supervise(cpu)); Can(c, Abs(s), b) && Abs(SuperviseStep(s, cpu)) == Do(c, Abs(s), b)
  {
    var z, s2 := SeizerOf(s, cpu), SuperviseStep(s, cpu);
    assert SeizerOk(c, s, cpu);
    if z.Loaded? {
      var l := Loc(cpu, z.cls);
      assert StackOk(c, s, l);
      assert Content(s2.stacks[l]) == Content(s.stacks[l])[..|Content(s.stacks[l])| - 1];
      assert Abs(s2).stacks == Abs(s).stacks[l := Content(s2.stacks[l])];
    } else {
    }
  }

  /** Every step of the rseq machine is one atomic step of the simple machine, or none. */
  lemma StepRefines(c: Config, s: State, a: Action)
    requires Inv(c, s) && Enabled(c, s, a)
    ensures var b := Meaning(c, s, a); Can(c, Abs(s), b) && Abs(Apply(c, s, a)) == Do(c, Abs(s), b)
  {
    if a.Exec? {
      ExecRefines(c, s, a.t);
    } else if a.Supervise? {
      SuperviseRefines(c, s, a.cpu);
    } else {
    }
  }

  // --- whole runs --------------------------------------------------------------------------

  ghost predicate CanRun(c: Config, s: State, acts: seq<Action>)
    decreases |acts|
  {
    acts == [] || (Enabled(c, s, acts[0]) && CanRun(c, Apply(c, s, acts[0]), acts[1..]))
  }

  ghost function After(c: Config, s: State, acts: seq<Action>): State
    requires CanRun(c, s, acts)
    decreases |acts|
  {
    if acts == [] then s else After(c, Apply(c, s, acts[0]), acts[1..])
  }

  ghost function Meanings(c: Config, s: State, acts: seq<Action>): seq<Atomic>
    requires CanRun(c, s, acts)
    decreases |acts|
  {
    if acts == [] then [] else [Meaning(c, s, acts[0])] + Meanings(c, Apply(c, s, acts[0]), acts[1..])
  }

  /** `m2` is what the simple machine makes of `m` by the atomic steps `bs`. */
  ghost predicate Leads(c: Config, m: Simple, bs: seq<Atomic>, m2: Simple)
    decreases |bs|
  {
    if bs == [] then m == m2 else Can(c, m, bs[0]) && Leads(c, Do(c, m, bs[0]), bs[1..], m2)
  }

  lemma {:induction false} RunKeepsInv(c: Config, s: State, acts: seq<Action>)
    requires Inv(c, s) && CanRun(c, s, acts)
    ensures Inv(c, After(c, s, acts))
    decreases |acts|
  {
    if acts != [] {
      StepKeepsInv(c, s, acts[0]);
      RunKeepsInv(c, Apply(c, s, acts[0]), acts[1..]);
    }
  }

  /** Under any preemption, migration, signal and seizure, a run of the rseq machine is a run of the
      atomic per-CPU stacks. */
  lemma {:induction false} RunRefines(c: Config, s: State, acts: seq<Action>)
    requires Inv(c, s) && CanRun(c, s, acts)
    ensures Leads(c, Abs(s), Meanings(c, s, acts), Abs(After(c, s, acts)))
    decreases |acts|
  {
    if acts != [] {
      StepKeepsInv(c, s, acts[0]);
      StepRefines(c, s, acts[0]);
      RunRefines(c, Apply(c, s, acts[0]), acts[1..]);
    }
  }

  // --- no pointer twice, none lost -----------------------------------------------------------

  datatype Spot = OnStack(l: Loc, i: nat) | Off(w: Where)

  ghost predicate Sits(m: Simple, p: Spot, x: Ptr) {
    match p
    case OnStack(l, i) => l in m.stacks && i < |m.stacks[l]| && m.stacks[l][i] == x
    case Off(w) => x in Get(m.at, w)
  }

  ghost predicate SitsSomewhere(m: Simple, x: Ptr) {
    exists p :: Sits(m, p, x)
  }

  /** Each of `objs` sits at exactly one spot, and nothing else sits anywhere. */
  ghost predicate Conserved(m: Simple, objs: set<Ptr>) {
    && (forall p, q, x | Sits(m, p, x) && Sits(m, q, x) :: p == q)
    && (forall x :: x in objs <==> SitsSomewhere(m, x))
  }

  /** Only pointers in `xs` change spot, from `p` to `q(x)`. */
  lemma OneMoved(m: Simple, m2: Simple, objs: set<Ptr>, x: Ptr, p: Spot, q: Spot)
    requires Conserved(m, objs) && Sits(m, p, x)
    requires forall r, y :: Sits(m2, r, y) <==> if y == x then r == q else Sits(m, r, y)
    ensures Conserved(m2, objs)
  {
    forall y ensures y in objs <==> SitsSomewhere(m2, y) {
      if y == x {
        assert Sits(m2, q, y);
      } else if SitsSomewhere(m, y) {
        var r :| Sits(m, r, y);
        assert Sits(m2, r, y);
      }
    }
  }

  lemma TransferConserves(c: Config, m: Simple, objs: set<Ptr>, p: Where, q: Where, x: set<Ptr>)
    requires Conserved(m, objs) && Can(c, m, Transfer(p, q, x))
    ensures Conserved(Do(c, m, Transfer(p, q, x)), objs)
  {
    var m2 := Do(c, m, Transfer(p, q, x));
    GetMove(m.at, p, q, x);
    forall r, y ensures Sits(m2, r, y) <==> if y in x then r == Off(q) else Sits(m, r, y) {
      assert y in x ==> Sits(m, Off(p), y);
      assert y in x && Sits(m, r, y) ==> r == Off(p);
    }
    forall y ensures y in objs <==> SitsSomewhere(m2, y) {
      if y in x {
        assert Sits(m2, Off(q), y) && Sits(m, Off(p), y);
      } else if SitsSomewhere(m, y) {
        var r :| Sits(m, r, y);
        assert Sits(m2, r, y);
      }
    }
  }

  lemma PushConserves(c: Config, m: Simple, objs: set<Ptr>, t: Tid, l: Loc, x: Ptr)
    requires Conserved(m, objs) && Can(c, m, PushTo(t, l, x))
    ensures Conserved(Do(c, m, PushTo(t, l, x)), objs)
  {
    var m2 := Do(c, m, PushTo(t, l, x));
    assert Sits(m, Off(Pushing(t)), x);
    var top := OnStack(l, |m.stacks[l]|);
    forall r, y ensures Sits(m2, r, y) <==> if y == x then r == top else Sits(m, r, y) {
      assert Sits(m, r, x) ==> r == Off(Pushing(t));
    }
    OneMoved(m, m2, objs, x, Off(Pushing(t)), top);
  }

  /** The top of stack `l` goes to `w`. */
  lemma TopConserves(m: Simple, m2: Simple, objs: set<Ptr>, l: Loc, w: Where, x: Ptr)
    requires Conserved(m, objs) && l in m.stacks && m.stacks[l] != [] && m.stacks[l][|m.stacks[l]| - 1] == x
    requires m2 == Simple(m.stacks[l := m.stacks[l][..|m.stacks[l]| - 1]], Put(m.at, w, {x}))
    ensures Conserved(m2, objs)
  {
    var top := OnStack(l, |m.stacks[l]| - 1);
    assert Sits(m, top, x);
    forall r, y ensures Sits(m2, r, y) <==> if y == x then r == Off(w) else Sits(m, r, y) {
      assert Sits(m, r, x) ==> r == top;
    }
    OneMoved(m, m2, objs, x, top, Off(w));
  }

  lemma AtomicConserves(c: Config, m: Simple, objs: set<Ptr>, b: Atomic)
    requires Conserved(m, objs) && Can(c, m, b)
    ensures Conserved(Do(c, m, b), objs)
  {
    match b
    case Skip =>
    case Transfer(p, q, x) => TransferConserves(c, m, objs, p, q, x);
    case PushTo(t, l, x) => PushConserves(c, m, objs, t, l, x);
    case PopFrom(t, l, x) => TopConserves(m, Do(c, m, b), objs, l, Hand(t), x);
    case TakeFrom(l, x) => TopConserves(m, Do(c, m, b), objs, l, Carried(l.cpu), x);
  }

  lemma {:induction false} LeadsConserves(c: Config, m: Simple, bs: seq<Atomic>, m2: Simple, objs: set<Ptr>)
    requires Conserved(m, objs) && Leads(c, m, bs, m2)
    ensures Conserved(m2, objs)
    decreases |bs|
  {
    if bs != [] {
      AtomicConserves(c, m, objs, bs[0]);
      LeadsConserves(c, Do(c, m, bs[0]), bs[1..], m2, objs);
    }
  }

  /** No pointer is popped twice, and none is lost: after any run each sits at exactly one spot. */
  lemma NothingTwiceNothingLost(c: Config, objs: set<Ptr>, acts: seq<Action>)
    requires CanRun(c, Initial(c, objs), acts)
    ensures Conserved(Abs(After(c, Initial(c, objs), acts)), objs)
  {
    var s := Initial(c, objs);
    RunRefines(c, s, acts);
    forall x ensures x in objs <==> SitsSomewhere(Abs(s), x) {
      if x in objs { assert Sits(Abs(s), Off(Central), x); }
    }
    LeadsConserves(c, Abs(s), Meanings(c, s, acts), Abs(After(c, s, acts)), objs);
  }

  // --- what a call's outcome means -------------------------------------------------------------

  /** A pop hands its caller the top of the stack of the CPU it runs on, and takes it off. */
  lemma PopReturnsTop(c: Config, s: State, t: Tid)
    requires Inv(c, s) && Enabled(c, s, Exec(t)) && ThreadOf(s, t).op.Pop?
    requires ThreadOf(Run(c, s, t), t).pc == Out && ThreadOf(Run(c, s, t), t).out == Done
    ensures var l, s2 := Loc(s.running[t], ThreadOf(s, t).op.cls), Run(c, s, t);
            && l in s.stacks && l in s2.stacks && Content(s.stacks[l]) != []
            && var top := Content(s.stacks[l])[|Content(s.stacks[l])| - 1];
            && Content(s.stacks[l]) == Content(s2.stacks[l]) + [top] && top in Get(s2.at, Hand(t))
  {
    assert ThreadOk(c, s, t);
    assert StackOk(c, s, Loc(s.running[t], ThreadOf(s, t).op.cls));
  }

  /** `NeedsSlow` means that at that instruction the stack of the CPU the thread runs on was empty (pop) or
      at capacity (push); a push that fails leaves the caller its object. */
  lemma NeedsSlowIsHonest(c: Config, s: State, t: Tid)
    requires Inv(c, s) && Enabled(c, s, Exec(t)) && PastStop(ThreadOf(s, t).pc)
    requires ThreadOf(Run(c, s, t), t).pc == Out && ThreadOf(Run(c, s, t), t).out == NeedsSlow
    ensures var op := ThreadOf(s, t).op;
            var l := Loc(s.running[t], op.cls);
            && l in s.stacks
            && |Content(s.stacks[l])| == (if op.Push? then c.capacity else 0)
            && (op.Push? ==> op.obj in Get(Run(c, s, t).at, Hand(t)))
  {
    assert ThreadOk(c, s, t);
    assert StackOk(c, s, Loc(s.running[t], ThreadOf(s, t).op.cls));
  }

  /** Sections that thread `t` arms along a run. */
  ghost function Armings(c: Config, s: State, acts: seq<Action>, t: Tid): nat
    requires CanRun(c, s, acts)
    decreases |acts|
  {
    if acts == [] then 0
    else
      var s2 := Apply(c, s, acts[0]);
      (if acts[0] == Exec(t) && ThreadOf(s2, t).pc.AtCpuCheck? then 1 else 0) + Armings(c, s2, acts[1..], t)
  }

  /** Each section a call arms uses up one of its retries. */
  lemma LoopsSpent(c: Config, s: State, a: Action, t: Tid)
    requires Enabled(c, s, a) && (!a.Call? || a.t != t)
    ensures var s2 := Apply(c, s, a);
            if a == Exec(t) && ThreadOf(s2, t).pc.AtCpuCheck?
            then ThreadOf(s, t).loops == ThreadOf(s2, t).loops + 1 >= 2
            else ThreadOf(s2, t).loops == ThreadOf(s, t).loops
  {
    if a.Exec? {
      LoopsSpentBy(c, s, a.t, t);
    } else {
    }
  }

  lemma LoopsSpentBy(c: Config, s: State, u: Tid, t: Tid)
    requires CanExec(c, s, u)
    ensures var s2 := Run(c, s, u);
            if u == t && ThreadOf(s2, t).pc.AtCpuCheck?
            then ThreadOf(s, t).loops == ThreadOf(s2, t).loops + 1 >= 2
            else ThreadOf(s2, t).loops == ThreadOf(s, t).loops
  {
  }

  /** However often the kernel interferes, one call arms its section at most four times. */
  lemma {:induction false} AtMostFourAttempts(c: Config, s: State, acts: seq<Action>, t: Tid)
    requires CanRun(c, s, acts) && forall a | a in acts && a.Call? :: a.t != t
    ensures Armings(c, s, acts, t) <= if ThreadOf(s, t).loops == 0 then 0 else ThreadOf(s, t).loops - 1
    ensures ThreadOf(s, t).loops <= LOOPS ==> Armings(c, s, acts, t) <= 4
    decreases |acts|
  {
    if acts != [] {
      LoopsSpent(c, s, acts[0], t);
      AtMostFourAttempts(c, Apply(c, s, acts[0]), acts[1..], t);
    }
  }

  // --- seizure ---------------------------------------------------------------------------------

  /** While the supervisor owns a CPU, no step but its own changes that CPU's stacks, not even a slot
      above the top. */
  lemma SeizeExcludes(c: Config, s: State, a: Action, l: Loc)
    requires Inv(c, s) && Enabled(c, s, a) && Owns(SeizerOf(s, l.cpu)) && l in s.stacks && a != Supervise(l.cpu)
    ensures l in Apply(c, s, a).stacks && Apply(c, s, a).stacks[l] == s.stacks[l]
  {
    NoWriter(c, s, l.cpu);
    if a.Exec? {
      assert ThreadOk(c, s, a.t);
    }
  }

  /** The last `n` of `xs`, last first. */
  function TopDown(xs: seq<Ptr>, n: nat): (r: seq<Ptr>)
    requires n <= |xs|
    ensures |r| == n && forall i | 0 <= i < n :: r[i] == xs[|xs| - 1 - i]
  {
    if n == 0 then [] else [xs[|xs| - 1]] + TopDown(xs[..|xs| - 1], n - 1)
  }

  ghost predicate DrainingOf(s: State, l: Loc) {
    && l in s.stacks && Owns(SeizerOf(s, l.cpu))
    && (!SeizerOf(s, l.cpu).Seized? ==> SeizerOf(s, l.cpu).cls == l.cls)
  }

  /** How many of the pointers still on the stack a rebalance has yet to take. */
  function Left(z: Seizer): nat {
    match z
    case Draining(_, left) => left
    case Loaded(_, left, _, _) => left
    case Carrying(_, left, _) => if left == 0 then 0 else left - 1
    case _ => 0
  }

  /** What it has still to deposit, in order, when `xs` is on the stack. */
  function PendingOf(z: Seizer, xs: seq<Ptr>): seq<Ptr> {
    (if z.Carrying? then [z.obj] else []) + TopDown(xs, Least(Left(z), |xs|))
  }

  function Pending(s: State, l: Loc): seq<Ptr>
    requires l in s.stacks
  {
    PendingOf(SeizerOf(s, l.cpu), Content(s.stacks[l]))
  }

  /** What it will leave on the stack. */
  function Rest(s: State, l: Loc): seq<Ptr>
    requires l in s.stacks
  {
    var xs := Content(s.stacks[l]);
    xs[..|xs| - Least(Left(SeizerOf(s, l.cpu)), |xs|)]
  }

  /** What a step of the supervisor on a CPU deposits. */
  ghost function Deposits(s: State, a: Action, cpu: nat): seq<Ptr> {
    if a == Supervise(cpu) && SeizerOf(s, cpu).Carrying? then [SeizerOf(s, cpu).obj] else []
  }

  ghost function AllDeposits(c: Config, s: State, acts: seq<Action>, cpu: nat): seq<Ptr>
    requires CanRun(c, s, acts)
    decreases |acts|
  {
    if acts == [] then [] else Deposits(s, acts[0], cpu) + AllDeposits(c, Apply(c, s, acts[0]), acts[1..], cpu)
  }

  /** No release of the CPU and no further rebalance of it. */
  predicate Undisturbed(acts: seq<Action>, cpu: nat) {
    forall a | a in acts :: a != Release(cpu) && !(a.Rebalance? && a.cpu == cpu)
  }

  lemma DrainStep(c: Config, s: State, l: Loc)
    requires Inv(c, s) && DrainingOf(s, l) && Enabled(c, s, Supervise(l.cpu))
    ensures DrainingOf(SuperviseStep(s, l.cpu), l)
    ensures Deposits(s, Supervise(l.cpu), l.cpu) + Pending(SuperviseStep(s, l.cpu), l) == Pending(s, l)
    ensures Rest(SuperviseStep(s, l.cpu), l) == Rest(s, l)
  {
    DrainPlan(c, s, l);
    var s2 := SuperviseStep(s, l.cpu);
  }

  /** What one step of a drain does to its plan, `z` to `z2`, and to the stack, `xs` to `ys`. */
  predicate Follows(z: Seizer, z2: Seizer, xs: seq<Ptr>, ys: seq<Ptr>, cls: nat) {
    && Left(z) <= |xs|
    && (if z.Loaded? then xs != [] && ys == xs[..|xs| - 1] && xs[|xs| - 1] == z.obj else ys == xs)
    && match z
       case Draining(_, left) =>
         if left == 0 then z2 == Seized else z2.Loaded? && z2.cls == cls && z2.left == left
       case Loaded(_, left, _, obj) => 0 < left && z2 == Carrying(cls, left, obj)
       case Carrying(_, left, _) => 0 < left && z2 == Draining(cls, left - 1)
       case _ => false
  }

  lemma DrainPlan(c: Config, s: State, l: Loc)
    requires Inv(c, s) && DrainingOf(s, l) && Enabled(c, s, Supervise(l.cpu))
    ensures var s2 := SuperviseStep(s, l.cpu);
            && l in s2.stacks && Owns(SeizerOf(s2, l.cpu))
            && Follows(SeizerOf(s, l.cpu), SeizerOf(s2, l.cpu), Content(s.stacks[l]), Content(s2.stacks[l]), l.cls)
  {
    assert SeizerOk(c, s, l.cpu) && StackOk(c, s, l);
  }

  lemma OtherStep(c: Config, s: State, a: Action, l: Loc)
    requires Inv(c, s) && DrainingOf(s, l) && Enabled(c, s, a)
    requires a != Supervise(l.cpu) && a != Release(l.cpu) && !(a.Rebalance? && a.cpu == l.cpu)
    ensures DrainingOf(Apply(c, s, a), l) && Deposits(s, a, l.cpu) == []
    ensures Pending(Apply(c, s, a), l) == Pending(s, l) && Rest(Apply(c, s, a), l) == Rest(s, l)
  {
    SeizeExcludes(c, s, a, l);
  }

  /** One step of either kind. */
  lemma PendingStep(c: Config, s: State, a: Action, l: Loc)
    requires Inv(c, s) && DrainingOf(s, l) && Enabled(c, s, a)
    requires a != Release(l.cpu) && !(a.Rebalance? && a.cpu == l.cpu)
    ensures Inv(c, Apply(c, s, a)) && DrainingOf(Apply(c, s, a), l)
    ensures Deposits(s, a, l.cpu) + Pending(Apply(c, s, a), l) == Pending(s, l)
    ensures Rest(Apply(c, s, a), l) == Rest(s, l)
  {
    StepKeepsInv(c, s, a);
    if a == Supervise(l.cpu) {
      DrainStep(c, s, l);
    } else {
      OtherStep(c, s, a, l);
    }
  }

  lemma {:induction false} PendingShrinks(c: Config, s: State, acts: seq<Action>, l: Loc)
    requires Inv(c, s) && DrainingOf(s, l) && CanRun(c, s, acts) && Undisturbed(acts, l.cpu)
    ensures DrainingOf(After(c, s, acts), l)
    ensures AllDeposits(c, s, acts, l.cpu) + Pending(After(c, s, acts), l) == Pending(s, l)
    ensures Rest(After(c, s, acts), l) == Rest(s, l)
    decreases |acts|
  {
    if acts != [] {
      PendingStep(c, s, acts[0], l);
      PendingShrinks(c, Apply(c, s, acts[0]), acts[1..], l);
      Associates(Deposits(s, acts[0], l.cpu), AllDeposits(c, Apply(c, s, acts[0]), acts[1..], l.cpu),
                 Pending(After(c, s, acts), l));
    }
  }

  lemma Associates(xs: seq<Ptr>, ys: seq<Ptr>, zs: seq<Ptr>)
    ensures (xs + ys) + zs == xs + (ys + zs)
  {
  }

  /** A rebalance of a seized stack, interleaved with anything else: when it is done the top
      `min(count, current)` pointers have each been deposited once, top first, and nothing else has
      changed on that stack. */
  lemma RebalanceMovesExactlyTheTop(c: Config, s: State, l: Loc, count: nat, acts: seq<Action>)
    requires Inv(c, s) && Enabled(c, s, Rebalance(l.cpu, l.cls, count))
    requires CanRun(c, Apply(c, s, Rebalance(l.cpu, l.cls, count)), acts) && Undisturbed(acts, l.cpu)
    requires SeizerOf(After(c, Apply(c, s, Rebalance(l.cpu, l.cls, count)), acts), l.cpu) == Seized
    ensures var s1 := Apply(c, s, Rebalance(l.cpu, l.cls, count));
            var s2 := After(c, s1, acts);
            var xs := Content(s.stacks[l]);
            var n := Least(count, |xs|);
            && l in s2.stacks && AllDeposits(c, s1, acts, l.cpu) == TopDown(xs, n)
            && Content(s2.stacks[l]) == xs[..|xs| - n]
  {
    var s1 := Apply(c, s, Rebalance(l.cpu, l.cls, count));
    assert StackOk(c, s, l);
    StepKeepsInv(c, s, Rebalance(l.cpu, l.cls, count));
    PendingShrinks(c, s1, acts, l);
    assert Pending(s1, l) == TopDown(Content(s.stacks[l]), Least(count, |Content(s.stacks[l])|));
    assert Pending(After(c, s1, acts), l) == [];
    assert AllDeposits(c, s1, acts, l.cpu) == AllDeposits(c, s1, acts, l.cpu) + [];
  }
}
