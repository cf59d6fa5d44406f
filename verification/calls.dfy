/** What one call and one seizure get done. */
module RseqCalls {
  // The rseq machine also does its work: a call that is left alone, or interrupted and migrated once, succeeds, and
  // gives up only for a reason.

  import opened Words
  import opened Places
  import opened Rseq

  /** Taking the actions `acts` from `s` leads to `s2`. */
  ghost predicate Leading(c: Config, s: State, acts: seq<Action>, s2: State) {
    CanRun(c, s, acts) && After(c, s, acts) == s2
  }

  lemma One(c: Config, s: State, a: Action)
    requires Enabled(c, s, a)
    ensures Leading(c, s, [a], Apply(c, s, a))
  {
    var s2 := Apply(c, s, a);
    assert [a][1..] == [] && CanRun(c, s2, []) && After(c, s2, []) == s2;
    assert After(c, s, [a]) == After(c, s2, [a][1..]);
  }

  lemma {:induction false} Then(c: Config, s: State, xs: seq<Action>, s1: State, ys: seq<Action>, s2: State)
    requires Leading(c, s, xs, s1) && Leading(c, s1, ys, s2)
    ensures Leading(c, s, xs + ys, s2)
    decreases |xs|
  {
    if xs == [] {
      assert xs + ys == ys;
    } else {
      Then(c, Apply(c, s, xs[0]), xs[1..], s1, ys, s2);
      assert (xs + ys)[1..] == xs[1..] + ys;
    }
  }

  /** `n` instructions of thread `t`. */
  ghost predicate Execs(c: Config, s: State, t: Tid, n: nat, s2: State) {
    Leading(c, s, seq(n, _ => Exec(t)), s2)
  }

  lemma Next(c: Config, s: State, t: Tid, n: nat, s1: State)
    requires Execs(c, s, t, n, s1) && CanExec(c, s1, t)
    ensures Execs(c, s, t, n + 1, Run(c, s1, t))
  {
    One(c, s1, Exec(t));
    Then(c, s, seq(n, _ => Exec(t)), s1, [Exec(t)], Run(c, s1, t));
    assert seq(n, _ => Exec(t)) + [Exec(t)] == seq(n + 1, _ => Exec(t));
  }

  lemma NoneYet(c: Config, s: State, t: Tid)
    ensures Execs(c, s, t, 0, s)
  {
    assert seq(0, _ => Exec(t)) == [];
  }

  // --- to the stack ------------------------------------------------------------------------------

  /** Thread `t` runs on a CPU of the layout that is not stopped, at the start of a call with a retry left. */
  ghost predicate Ready(c: Config, s: State, t: Tid) {
    && Inv(c, s) && t in s.running && t in c.registered && ThreadOf(s, t).pc == AtStart && ThreadOf(s, t).loops >= 2
    && s.running[t] < c.numCpus && s.running[t] !in s.stopped
  }

  /** The stack its call is about. */
  function StackOf(s: State, t: Tid): Loc
    requires t in s.running
  {
    Loc(s.running[t], ThreadOf(s, t).op.cls)
  }

  /** Nothing but thread `t` has changed, and it is in the same call. */
  ghost predicate OnlyThread(s: State, s2: State, t: Tid) {
    s2 == s.(th := s2.th) && ThreadOf(s2, t).op == ThreadOf(s, t).op && forall u | u != t :: ThreadOf(s2, u) == ThreadOf(s, u)
  }

  /** Four instructions to where the stack is first looked at. */
  lemma Arrive(c: Config, s: State, t: Tid) returns (s4: State)
    requires Ready(c, s, t)
    ensures Execs(c, s, t, 4, s4) && OnlyThread(s, s4, t) && ThreadOf(s4, t).pc == AtCurrent(s.running[t])
    ensures StackOf(s, t) in s.stacks && StackOk(c, s, StackOf(s, t))
  {
    hide Execs;
    assert ThreadOk(c, s, t) && StackOk(c, s, StackOf(s, t));
    NoneYet(c, s, t);
    Next(c, s, t, 0, s);
    var s1 := Run(c, s, t);
    Next(c, s, t, 1, s1);
    var s2 := Run(c, s1, t);
    Next(c, s, t, 2, s2);
    var s3 := Run(c, s2, t);
    Next(c, s, t, 3, s3);
    s4 := Run(c, s3, t);
  }

  // --- a pop --------------------------------------------------------------------------------------

  /** A pop that is left alone on a stack that is not empty succeeds in seven instructions: its caller gets the top,
      and the stack loses just that. */
  lemma PopSucceeds(c: Config, s: State, t: Tid) returns (s7: State)
    requires Ready(c, s, t) && ThreadOf(s, t).op.Pop? && StackOf(s, t) in s.stacks && Content(s.stacks[StackOf(s, t)]) != []
    ensures Execs(c, s, t, 7, s7) && ThreadOf(s7, t).pc == Out && ThreadOf(s7, t).out == Done
    ensures var l := StackOf(s, t);
            var xs := Content(s.stacks[l]);
            && Abs(s7).stacks == Abs(s).stacks[l := xs[..|xs| - 1]]
            && s7.at == Put(s.at, Hand(t), {xs[|xs| - 1]})
  {
    hide Execs;
    var s4 := Arrive(c, s, t);
    Next(c, s, t, 4, s4);
    var s5 := Run(c, s4, t);
    Next(c, s, t, 5, s5);
    var s6 := Run(c, s5, t);
    Next(c, s, t, 6, s6);
    s7 := Run(c, s6, t);
    var l := StackOf(s, t);
    assert Content(s7.stacks[l]) == Content(s.stacks[l])[..|Content(s.stacks[l])| - 1];
    assert forall k :: k in s.stacks && k != l ==> s7.stacks[k] == s.stacks[k];
  }

  /** On an empty stack it asks for the slow path. */
  lemma PopFindsEmpty(c: Config, s: State, t: Tid) returns (s5: State)
    requires Ready(c, s, t) && ThreadOf(s, t).op.Pop? && StackOf(s, t) in s.stacks && Content(s.stacks[StackOf(s, t)]) == []
    ensures Execs(c, s, t, 5, s5) && ThreadOf(s5, t).pc == Out && ThreadOf(s5, t).out == NeedsSlow
    ensures s5.stacks == s.stacks && forall w :: Get(s5.at, w) == Get(s.at, w)
  {
    hide Execs;
    var s4 := Arrive(c, s, t);
    Next(c, s, t, 4, s4);
    s5 := Run(c, s4, t);
    assert ThreadOk(c, s, t);
  }

  // --- a push -------------------------------------------------------------------------------------

  /** Six instructions to the slot above the top. */
  lemma ToSlot(c: Config, s: State, t: Tid) returns (s6: State)
    requires Ready(c, s, t) && ThreadOf(s, t).op.Push? && StackOf(s, t) in s.stacks
    requires |Content(s.stacks[StackOf(s, t)])| < c.capacity
    ensures Execs(c, s, t, 6, s6) && OnlyThread(s, s6, t)
    ensures StackOk(c, s, StackOf(s, t)) && ThreadOf(s6, t).pc == AtSlot(s.running[t], s.stacks[StackOf(s, t)].current)
  {
    hide Execs;
    var s4 := Arrive(c, s, t);
    Next(c, s, t, 4, s4);
    var s5 := Run(c, s4, t);
    Next(c, s, t, 5, s5);
    s6 := Run(c, s5, t);
  }

  /** A push that is left alone on a stack with room succeeds in eight instructions: the object is on top. */
  lemma PushSucceeds(c: Config, s: State, t: Tid) returns (s8: State)
    requires Ready(c, s, t) && ThreadOf(s, t).op.Push? && StackOf(s, t) in s.stacks
    requires |Content(s.stacks[StackOf(s, t)])| < c.capacity
    ensures Execs(c, s, t, 8, s8) && ThreadOf(s8, t).pc == Out && ThreadOf(s8, t).out == Done
    ensures var l, x := StackOf(s, t), ThreadOf(s, t).op.obj;
            && Abs(s8).stacks == Abs(s).stacks[l := Content(s.stacks[l]) + [x]]
            && s8.at == Drop(s.at, Pushing(t), {x})
  {
    hide Execs, Inv, Move, Put;
    var s6 := ToSlot(c, s, t);
    Next(c, s, t, 6, s6);
    var s7 := Run(c, s6, t);
    Next(c, s, t, 7, s7);
    s8 := Run(c, s7, t);
    var l := StackOf(s, t);
    assert Content(s8.stacks[l]) == Content(s.stacks[l]) + [ThreadOf(s, t).op.obj];
    assert forall k :: k in s.stacks && k != l ==> s8.stacks[k] == s.stacks[k];
  }

  /** On a full stack it asks for the slow path and gives the object back. */
  lemma PushFindsFull(c: Config, s: State, t: Tid) returns (s6: State)
    requires Ready(c, s, t) && ThreadOf(s, t).op.Push? && StackOf(s, t) in s.stacks
    requires |Content(s.stacks[StackOf(s, t)])| == c.capacity
    ensures Execs(c, s, t, 6, s6) && ThreadOf(s6, t).pc == Out && ThreadOf(s6, t).out == NeedsSlow
    ensures s6.stacks == s.stacks && s6.at == Move(s.at, Pushing(t), Hand(t), {ThreadOf(s, t).op.obj})
  {
    hide Execs;
    var s4 := Arrive(c, s, t);
    Next(c, s, t, 4, s4);
    var s5 := Run(c, s4, t);
    Next(c, s, t, 5, s5);
    s6 := Run(c, s5, t);
    assert ThreadOk(c, s, t);
  }

  // --- giving up ----------------------------------------------------------------------------------

  /** Every retry register counts what is left of the five. */
  lemma {:induction false} RetriesLeft(c: Config, s: State, acts: seq<Action>, t: Tid)
    requires CanRun(c, s, acts) && forall a | a in acts && a.Call? :: a.t != t
    ensures ThreadOf(After(c, s, acts), t).loops + Armings(c, s, acts, t) == ThreadOf(s, t).loops
    decreases |acts|
  {
    if acts != [] {
      LoopsSpent(c, s, acts[0], t);
      RetriesLeft(c, Apply(c, s, acts[0]), acts[1..], t);
    }
  }

  /** Whatever has happened since a call began, its next instruction gives up exactly if the CPU id it read is out
      of range or it has armed its section four times, or if the CPU it runs on is stopped. */
  lemma FallbackIff(c: Config, s: State, acts: seq<Action>, t: Tid)
    requires Inv(c, s) && ThreadOf(s, t).pc == AtStart && ThreadOf(s, t).loops == LOOPS
    requires CanRun(c, s, acts) && (forall a | a in acts && a.Call? :: a.t != t) && CanExec(c, After(c, s, acts), t)
    ensures var s1 := After(c, s, acts);
            var p, th := ThreadOf(s1, t).pc, ThreadOf(Run(c, s1, t), t);
            th.pc == Out && th.out == Fallback <==>
              (p.AtArm? && (p.cpu >= c.numCpus || Armings(c, s, acts, t) == 4)) || (p.AtStopCheck? && s1.running[t] in s1.stopped)
  {
    RetriesLeft(c, s, acts, t);
    AtMostFourAttempts(c, s, acts, t);
    RunKeepsInv(c, s, acts);
    assert ThreadOk(c, After(c, s, acts), t);
  }

  lemma ExecsThen(c: Config, s: State, t: Tid, n: nat, s1: State, m: nat, s2: State)
    requires Execs(c, s, t, n, s1) && Execs(c, s1, t, m, s2)
    ensures Execs(c, s, t, n + m, s2)
  {
    Then(c, s, seq(n, _ => Exec(t)), s1, seq(m, _ => Exec(t)), s2);
    assert seq(n, _ => Exec(t)) + seq(m, _ => Exec(t)) == seq(n + m, _ => Exec(t));
  }

  /** A thread without a kernel area never gets past the CPU check: it spends its retries and gives up, and has
      touched no stack. */
  lemma {:induction false} UnregisteredGivesUp(c: Config, s: State, t: Tid) returns (s2: State)
    requires Inv(c, s) && c.numCpus > 0 && t in s.running && t !in c.registered && ThreadOf(s, t).pc == AtStart && ThreadOf(s, t).loops >= 1
    ensures Execs(c, s, t, 3 * ThreadOf(s, t).loops - 1, s2) && ThreadOf(s2, t).pc == Out && ThreadOf(s2, t).out == Fallback
    ensures s2.stacks == s.stacks
    decreases ThreadOf(s, t).loops
  {
    hide Execs;
    NoneYet(c, s, t);
    Next(c, s, t, 0, s);
    var s1 := Run(c, s, t);
    Next(c, s, t, 1, s1);
    s2 := Run(c, s1, t);
    if ThreadOf(s, t).loops > 1 {
      Next(c, s, t, 2, s2);
      var s3 := Run(c, s2, t);
      ExecKeeps(c, s, t);
      ExecKeeps(c, s1, t);
      ExecKeeps(c, s2, t);
      s2 := UnregisteredGivesUp(c, s3, t);
      ExecsThen(c, s, t, 3, s3, 3 * ThreadOf(s3, t).loops - 1, s2);
    }
  }

  // --- from outside, and across a migration -----------------------------------------------------

  /** What a pop of class `cls` by thread `t` on CPU `cpu` gets done. */
  ghost predicate PoppedBy(s: State, s2: State, t: Tid, cpu: nat, cls: nat) {
    && ThreadOf(s2, t).pc == Out && ThreadOf(s2, t).out == Done && Loc(cpu, cls) in s.stacks
    && var xs := Content(s.stacks[Loc(cpu, cls)]);
    && xs != [] && Abs(s2).stacks == Abs(s).stacks[Loc(cpu, cls) := xs[..|xs| - 1]]
    && s2.at == Put(s.at, Hand(t), {xs[|xs| - 1]})
  }

  /** A thread dispatched on a CPU that calls for an object of a class with some on that CPU's stack gets the top. */
  lemma CallPops(c: Config, s: State, t: Tid, cpu: nat, cls: nat) returns (s2: State)
    requires Inv(c, s) && t in c.registered && ThreadOf(s, t).pc == Out && t !in s.running && (forall u | u in s.running :: s.running[u] != cpu)
    requires cpu < c.numCpus && cpu !in s.stopped && cls < c.classes && Loc(cpu, cls) in s.stacks && Content(s.stacks[Loc(cpu, cls)]) != []
    ensures Leading(c, s, [Dispatch(t, cpu), Call(t, Pop(cls))] + seq(7, _ => Exec(t)), s2) && PoppedBy(s, s2, t, cpu, cls)
  {
    var s0 := Apply(c, s, Dispatch(t, cpu));
    StepKeepsInv(c, s, Dispatch(t, cpu));
    var s1 := Apply(c, s0, Call(t, Pop(cls)));
    StepKeepsInv(c, s0, Call(t, Pop(cls)));
    One(c, s, Dispatch(t, cpu));
    One(c, s0, Call(t, Pop(cls)));
    Then(c, s, [Dispatch(t, cpu)], s0, [Call(t, Pop(cls))], s1);
    assert [Dispatch(t, cpu)] + [Call(t, Pop(cls))] == [Dispatch(t, cpu), Call(t, Pop(cls))];
    s2 := PopSucceeds(c, s1, t);
    Then(c, s, [Dispatch(t, cpu), Call(t, Pop(cls))], s1, seq(7, _ => Exec(t)), s2);
  }

  /** A thread dispatched on a CPU that frees an object it holds to a stack there with room leaves it on top. */
  lemma CallPushes(c: Config, s: State, t: Tid, cpu: nat, cls: nat, x: Ptr) returns (s2: State)
    requires Inv(c, s) && t in c.registered && ThreadOf(s, t).pc == Out && t !in s.running && (forall u | u in s.running :: s.running[u] != cpu)
    requires cpu < c.numCpus && cpu !in s.stopped && cls < c.classes && Loc(cpu, cls) in s.stacks
    requires |Content(s.stacks[Loc(cpu, cls)])| < c.capacity && x in Get(s.at, Hand(t))
    ensures Leading(c, s, [Dispatch(t, cpu), Call(t, Push(cls, x))] + seq(8, _ => Exec(t)), s2)
    ensures ThreadOf(s2, t).pc == Out && ThreadOf(s2, t).out == Done
    ensures Abs(s2).stacks == Abs(s).stacks[Loc(cpu, cls) := Content(s.stacks[Loc(cpu, cls)]) + [x]]
    ensures forall w :: Get(s2.at, w) == if w == Hand(t) then Get(s.at, w) - {x} else Get(s.at, w)
  {
    var s0 := Apply(c, s, Dispatch(t, cpu));
    StepKeepsInv(c, s, Dispatch(t, cpu));
    var s1 := Apply(c, s0, Call(t, Push(cls, x)));
    StepKeepsInv(c, s0, Call(t, Push(cls, x)));
    One(c, s, Dispatch(t, cpu));
    One(c, s0, Call(t, Push(cls, x)));
    Then(c, s, [Dispatch(t, cpu)], s0, [Call(t, Push(cls, x))], s1);
    assert [Dispatch(t, cpu)] + [Call(t, Push(cls, x))] == [Dispatch(t, cpu), Call(t, Push(cls, x))];
    s2 := PushSucceeds(c, s1, t);
    Then(c, s, [Dispatch(t, cpu), Call(t, Push(cls, x))], s1, seq(8, _ => Exec(t)), s2);
    GetMove(s.at, Hand(t), Pushing(t), {x});
    assert ThreadOk(c, s, t);
  }

  /** A pop that is preempted anywhere in its section and goes on on another CPU starts again there and gets the
      top of that CPU's stack. */
  lemma MigratedPop(c: Config, s: State, t: Tid, cpu: nat) returns (s2: State)
    requires Inv(c, s) && t in s.running && t in c.registered && ThreadOf(s, t).op.Pop? && InSection(ThreadOf(s, t).pc) && ThreadOf(s, t).loops >= 2
    requires cpu < c.numCpus && cpu !in s.stopped && forall u | u in s.running && u != t :: s.running[u] != cpu
    requires Loc(cpu, ThreadOf(s, t).op.cls) in s.stacks && Content(s.stacks[Loc(cpu, ThreadOf(s, t).op.cls)]) != []
    ensures Leading(c, s, [Preempt(t), Dispatch(t, cpu)] + seq(7, _ => Exec(t)), s2) && PoppedBy(s, s2, t, cpu, ThreadOf(s, t).op.cls)
  {
    var s0 := Apply(c, s, Preempt(t));
    StepKeepsInv(c, s, Preempt(t));
    var s1 := Apply(c, s0, Dispatch(t, cpu));
    StepKeepsInv(c, s0, Dispatch(t, cpu));
    One(c, s, Preempt(t));
    One(c, s0, Dispatch(t, cpu));
    Then(c, s, [Preempt(t)], s0, [Dispatch(t, cpu)], s1);
    assert [Preempt(t)] + [Dispatch(t, cpu)] == [Preempt(t), Dispatch(t, cpu)];
    s2 := PopSucceeds(c, s1, t);
    Then(c, s, [Preempt(t), Dispatch(t, cpu)], s1, seq(7, _ => Exec(t)), s2);
  }

  /** A pop interrupted by a signal anywhere in its section starts again and gets the top of the stack of the same CPU. */
  lemma SignalledPop(c: Config, s: State, t: Tid) returns (s2: State)
    requires Inv(c, s) && t in s.running && t in c.registered && ThreadOf(s, t).op.Pop? && InSection(ThreadOf(s, t).pc) && ThreadOf(s, t).loops >= 2
    requires s.running[t] < c.numCpus && s.running[t] !in s.stopped
    requires StackOf(s, t) in s.stacks && Content(s.stacks[StackOf(s, t)]) != []
    ensures Leading(c, s, [Signal(t)] + seq(7, _ => Exec(t)), s2) && PoppedBy(s, s2, t, s.running[t], ThreadOf(s, t).op.cls)
  {
    var s1 := Apply(c, s, Signal(t));
    StepKeepsInv(c, s, Signal(t));
    One(c, s, Signal(t));
    s2 := PopSucceeds(c, s1, t);
    Then(c, s, [Signal(t)], s1, seq(7, _ => Exec(t)), s2);
  }

  /** A CPU id that was read before a migration costs a retry and no more: the call is back at its start. */
  lemma StaleCpu(c: Config, s: State, t: Tid) returns (s2: State)
    requires Inv(c, s) && t in s.running && t in c.registered && ThreadOf(s, t).pc.AtArm? && ThreadOf(s, t).loops >= 3
    requires ThreadOf(s, t).pc.cpu < c.numCpus && ThreadOf(s, t).pc.cpu != s.running[t] < c.numCpus && s.running[t] !in s.stopped
    ensures Execs(c, s, t, 2, s2) && Ready(c, s2, t) && OnlyThread(s, s2, t)
  {
    hide Execs;
    NoneYet(c, s, t);
    Next(c, s, t, 0, s);
    var s1 := Run(c, s, t);
    Next(c, s, t, 1, s1);
    s2 := Run(c, s1, t);
    ExecKeeps(c, s, t);
    ExecKeeps(c, s1, t);
  }

  // --- a seizure ----------------------------------------------------------------------------------

  /** `n` steps of the supervisor on one CPU. */
  ghost predicate Supervised(c: Config, s: State, cpu: nat, n: nat, s2: State) {
    Leading(c, s, seq(n, _ => Supervise(cpu)), s2)
  }

  lemma SupervisedOne(c: Config, s: State, cpu: nat)
    requires CanSupervise(s, cpu)
    ensures Supervised(c, s, cpu, 1, SuperviseStep(s, cpu))
  {
    One(c, s, Supervise(cpu));
    assert seq(1, _ => Supervise(cpu)) == [Supervise(cpu)];
  }

  lemma SupervisedThen(c: Config, s: State, cpu: nat, n: nat, s1: State, m: nat, s2: State)
    requires Supervised(c, s, cpu, n, s1) && Supervised(c, s1, cpu, m, s2)
    ensures Supervised(c, s, cpu, n + m, s2)
  {
    Then(c, s, seq(n, _ => Supervise(cpu)), s1, seq(m, _ => Supervise(cpu)), s2);
    assert seq(n, _ => Supervise(cpu)) + seq(m, _ => Supervise(cpu)) == seq(n + m, _ => Supervise(cpu));
  }

  /** The top `n` pointers of `xs`. */
  ghost function TopSet(xs: seq<Ptr>, n: nat): set<Ptr>
    requires n <= |xs|
  {
    if n == 0 then {} else {xs[|xs| - 1]} + TopSet(xs[..|xs| - 1], n - 1)
  }

  /** The top `n` of the stack at `l` have gone to the central list, and no other stack has changed. */
  ghost predicate Drained(s: State, s2: State, l: Loc, n: nat) {
    && l in s.stacks && l in s2.stacks && n <= |Content(s.stacks[l])|
    && Content(s2.stacks[l]) == Content(s.stacks[l])[..|Content(s.stacks[l])| - n]
    && s2.stacks.Keys == s.stacks.Keys && (forall k | k in s.stacks && k != l :: s2.stacks[k] == s.stacks[k])
    && Get(s2.at, Central) == Get(s.at, Central) + TopSet(Content(s.stacks[l]), n)
  }

  /** What changes from the first to the second is what changes on the whole. */
  lemma DrainedOn(s: State, s1: State, s2: State, l: Loc, n: nat)
    requires Drained(s, s1, l, 1) && Drained(s1, s2, l, n)
    ensures Drained(s, s2, l, n + 1)
  {
    var xs := Content(s.stacks[l]);
    assert xs[..|xs| - 1][..|xs| - 1 - n] == xs[..|xs| - 1 - n];
    assert TopSet(xs, 1) == {xs[|xs| - 1]} + TopSet(xs[..|xs| - 1], 0);
  }

  /** A drain of `left` pointers ends after three steps for each and one more. */
  lemma {:induction false} DrainEnds(c: Config, s: State, cpu: nat) returns (s2: State)
    requires Inv(c, s) && SeizerOf(s, cpu).Draining?
    ensures var Draining(cls, left) := SeizerOf(s, cpu);
            && Supervised(c, s, cpu, 3 * left + 1, s2) && SeizerOf(s2, cpu) == Seized
            && Drained(s, s2, Loc(cpu, cls), left) && s2.stopped == s.stopped && s2.running == s.running
    decreases SeizerOf(s, cpu).left
  {
    hide Supervised, Inv;
    var Draining(cls, left) := SeizerOf(s, cpu);
    if left == 0 {
      s2 := LastStep(c, s, cpu);
    } else {
      var s3 := DrainTurn(c, s, cpu);
      s2 := DrainEnds(c, s3, cpu);
      DrainedOn(s, s3, s2, Loc(cpu, cls), left - 1);
      SupervisedThen(c, s, cpu, 3, s3, 3 * (left - 1) + 1, s2);
    }
  }

  lemma LastStep(c: Config, s: State, cpu: nat) returns (s2: State)
    requires Inv(c, s) && SeizerOf(s, cpu).Draining? && SeizerOf(s, cpu).left == 0
    ensures Supervised(c, s, cpu, 1, s2) && SeizerOf(s2, cpu) == Seized && s2 == s.(seizer := s2.seizer)
    ensures Drained(s, s2, Loc(cpu, SeizerOf(s, cpu).cls), 0)
  {
    hide Supervised;
    assert SeizerOk(c, s, cpu);
    s2 := SuperviseStep(s, cpu);
    SupervisedOne(c, s, cpu);
  }

  /** The three steps for one pointer: load it, store `current`, deposit it. */
  lemma DrainTurn(c: Config, s: State, cpu: nat) returns (s3: State)
    requires Inv(c, s) && SeizerOf(s, cpu).Draining? && SeizerOf(s, cpu).left > 0
    ensures var Draining(cls, left) := SeizerOf(s, cpu);
            && Supervised(c, s, cpu, 3, s3) && Inv(c, s3) && SeizerOf(s3, cpu) == Draining(cls, left - 1)
            && Drained(s, s3, Loc(cpu, cls), 1) && s3.stopped == s.stopped && s3.running == s.running
  {
    hide Supervised, Inv, CanSupervise, SuperviseStep, Content;
    var Draining(cls, left) := SeizerOf(s, cpu);
    var l := Loc(cpu, cls);
    var s1 := LoadTop(c, s, cpu);
    var s2 := StoreCurrent(c, s1, cpu);
    s3 := DepositOne(c, s2, cpu);
    SupervisedThen(c, s, cpu, 1, s1, 1, s2);
    SupervisedThen(c, s, cpu, 2, s2, 1, s3);
    var xs := Content(s.stacks[l]);
    assert TopSet(xs, 1) == {xs[|xs| - 1]} + TopSet(xs[..|xs| - 1], 0);
  }

  lemma LoadTop(c: Config, s: State, cpu: nat) returns (s1: State)
    requires Inv(c, s) && SeizerOf(s, cpu).Draining? && SeizerOf(s, cpu).left > 0
    ensures var Draining(cls, left) := SeizerOf(s, cpu);
            var l := Loc(cpu, cls);
            && Supervised(c, s, cpu, 1, s1) && Inv(c, s1) && s1 == s.(seizer := s1.seizer)
            && l in s.stacks && Content(s.stacks[l]) != [] && SeizerOf(s1, cpu).Loaded?
            && SeizerOf(s1, cpu).cls == cls && SeizerOf(s1, cpu).left == left && SeizerOf(s1, cpu).obj == Content(s.stacks[l])[|Content(s.stacks[l])| - 1]
  {
    hide Supervised;
    assert SeizerOk(c, s, cpu) && StackOk(c, s, Loc(cpu, SeizerOf(s, cpu).cls));
    s1 := SuperviseStep(s, cpu);
    SuperviseKeeps(c, s, cpu);
    SupervisedOne(c, s, cpu);
  }

  lemma StoreCurrent(c: Config, s: State, cpu: nat) returns (s1: State)
    requires Inv(c, s) && SeizerOf(s, cpu).Loaded?
    ensures var Loaded(cls, left, cur, obj) := SeizerOf(s, cpu);
            var l := Loc(cpu, cls);
            && Supervised(c, s, cpu, 1, s1) && Inv(c, s1) && SeizerOf(s1, cpu) == Carrying(cls, left, obj)
            && s1 == s.(seizer := s1.seizer, stacks := s1.stacks, at := s1.at) && Get(s1.at, Central) == Get(s.at, Central)
            && l in s.stacks && l in s1.stacks && s1.stacks == s.stacks[l := s1.stacks[l]] && Content(s.stacks[l]) != []
            && Content(s1.stacks[l]) == Content(s.stacks[l])[..|Content(s.stacks[l])| - 1]
  {
    hide Supervised;
    var l := Loc(cpu, SeizerOf(s, cpu).cls);
    assert SeizerOk(c, s, cpu) && StackOk(c, s, l);
    s1 := SuperviseStep(s, cpu);
    assert s1.stacks == s.stacks[l := s1.stacks[l]];
    SuperviseKeeps(c, s, cpu);
    SupervisedOne(c, s, cpu);
  }

  lemma DepositOne(c: Config, s: State, cpu: nat) returns (s1: State)
    requires Inv(c, s) && SeizerOf(s, cpu).Carrying?
    ensures var Carrying(cls, left, obj) := SeizerOf(s, cpu);
            && Supervised(c, s, cpu, 1, s1) && Inv(c, s1) && left > 0 && SeizerOf(s1, cpu) == Draining(cls, left - 1)
            && s1 == s.(seizer := s1.seizer, at := s1.at) && Get(s1.at, Central) == Get(s.at, Central) + {obj}
  {
    hide Supervised;
    assert SeizerOk(c, s, cpu);
    s1 := SuperviseStep(s, cpu);
    SuperviseKeeps(c, s, cpu);
    SupervisedOne(c, s, cpu);
  }

  lemma Seize(c: Config, s: State, cpu: nat, cls: nat, count: nat) returns (s3: State, acts: seq<Action>)
    requires Inv(c, s) && SeizerOf(s, cpu) == Free && cpu < c.numCpus && Loc(cpu, cls) in s.stacks
    ensures acts == [SetFlag(cpu), Barrier(cpu), Rebalance(cpu, cls, count)] && Leading(c, s, acts, s3) && Inv(c, s3)
    ensures SeizerOf(s3, cpu) == Draining(cls, Least(count, s.stacks[Loc(cpu, cls)].current))
    ensures s3.stacks == s.stacks && s3.at == s.at && s3.running == s.running && s3.stopped == s.stopped + {cpu} && cpu !in s.stopped
  {
    assert SeizerOk(c, s, cpu);
    var s1 := Apply(c, s, SetFlag(cpu));
    StepKeepsInv(c, s, SetFlag(cpu));
    One(c, s, SetFlag(cpu));
    var s2 := Apply(c, s1, Barrier(cpu));
    StepKeepsInv(c, s1, Barrier(cpu));
    One(c, s1, Barrier(cpu));
    s3 := Apply(c, s2, Rebalance(cpu, cls, count));
    StepKeepsInv(c, s2, Rebalance(cpu, cls, count));
    One(c, s2, Rebalance(cpu, cls, count));
    Then(c, s, [SetFlag(cpu)], s1, [Barrier(cpu)], s2);
    Then(c, s, [SetFlag(cpu)] + [Barrier(cpu)], s2, [Rebalance(cpu, cls, count)], s3);
    acts := [SetFlag(cpu)] + [Barrier(cpu)] + [Rebalance(cpu, cls, count)];
  }

  /** Seizing a CPU, taking pointers off one of its stacks and releasing it does just that: the top `count`, or all
      there are, are on the central list, and the CPU is as free as before. */
  lemma SeizeAndRelease(c: Config, s: State, cpu: nat, cls: nat, count: nat) returns (s2: State)
    requires Inv(c, s) && SeizerOf(s, cpu) == Free && cpu < c.numCpus && cls < c.classes && Loc(cpu, cls) in s.stacks
    ensures var n := Least(count, |Content(s.stacks[Loc(cpu, cls)])|);
            && Leading(c, s, [SetFlag(cpu), Barrier(cpu), Rebalance(cpu, cls, count)] + seq(3 * n + 1, _ => Supervise(cpu)) + [Release(cpu)], s2)
            && SeizerOf(s2, cpu) == Free && s2.stopped == s.stopped && s2.running == s.running && Drained(s, s2, Loc(cpu, cls), n)
  {
    hide Drained, CanRun, After;
    var l := Loc(cpu, cls);
    var s1, pre := Seize(c, s, cpu, cls, count);
    assert StackOk(c, s, l);
    var n := Least(count, |Content(s.stacks[l])|);
    var s3 := DrainEnds(c, s1, cpu);
    Then(c, s, pre, s1, seq(3 * n + 1, _ => Supervise(cpu)), s3);
    s2 := Unseize(c, s3, cpu);
    Then(c, s, pre + seq(3 * n + 1, _ => Supervise(cpu)), s3, [Release(cpu)], s2);
    DrainedBetween(s, s1, s3, s2, l, n);
  }

  lemma Unseize(c: Config, s: State, cpu: nat) returns (s2: State)
    requires SeizerOf(s, cpu) == Seized
    ensures Leading(c, s, [Release(cpu)], s2) && SeizerOf(s2, cpu) == Free
    ensures s2 == s.(seizer := s2.seizer, stopped := s.stopped - {cpu})
  {
    s2 := Apply(c, s, Release(cpu));
    One(c, s, Release(cpu));
  }

  lemma DrainedBetween(s: State, s1: State, s3: State, s2: State, l: Loc, n: nat)
    requires Drained(s1, s3, l, n) && s1.stacks == s.stacks && s1.at == s.at && s2.stacks == s3.stacks && s2.at == s3.at
    ensures Drained(s, s2, l, n)
  {
  }

  /** A seizure whose barrier fails is called off: everything is as before. */
  lemma SeizureFails(c: Config, s: State, cpu: nat) returns (s2: State)
    requires Inv(c, s) && SeizerOf(s, cpu) == Free && cpu < c.numCpus
    ensures Leading(c, s, [SetFlag(cpu), BarrierFails(cpu)], s2) && s2 == s.(seizer := s2.seizer)
    ensures forall k :: SeizerOf(s2, k) == SeizerOf(s, k)
  {
    assert SeizerOk(c, s, cpu);
    var s1 := Apply(c, s, SetFlag(cpu));
    One(c, s, SetFlag(cpu));
    s2 := Apply(c, s1, BarrierFails(cpu));
    One(c, s1, BarrierFails(cpu));
    Then(c, s, [SetFlag(cpu)], s1, [BarrierFails(cpu)], s2);
    assert [SetFlag(cpu)] + [BarrierFails(cpu)] == [SetFlag(cpu), BarrierFails(cpu)];
    assert s1.stopped - {cpu} == s.stopped;
  }
}
