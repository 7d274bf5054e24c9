/** Whole runs of one CPU's scheduler: every step keeps the invariant, and when the clock can be trusted. */
module SchedulerRuns {
  import opened Prelude
  import opened Arithmetic
  import opened Eevdf
  import opened RunQueue
  import opened RunQueueInvariant
  import opened Selection
  import opened VirtualTime

  datatype Step =
    | AdmitTask(id: TaskId, task: Task)
    | Withdraw(id: TaskId)
    | Wake(id: TaskId)
    | DrainInbox
    | Take(now: Nanos)
    | Tick(now: Nanos)
    | PreemptTrap(onStack: bool, at: Option<Nanos>)
    | BoundaryTrap(onStack: bool, action: BoundaryAction, at: Option<Nanos>)
    | MigrateOut(now: Nanos, threshold: Nanos, relax: bool)
    | Poke(id: TaskId, task: Task)

  /** What each entry point demands of its caller. `Poke` is any task-side change of flags. */
  predicate Enabled(s: Cpu, step: Step) {
    match step
    case AdmitTask(_, t) => Admissible(t)
    case Withdraw(id) => id in s.tasks ==> !Ready(s.tasks[id])
    case Take(_) => s.current == None
    case Poke(id, t) => id in s.tasks && SameSchedule(s.tasks[id], t)
    case _ => true
  }

  function Apply(s: Cpu, step: Step): Cpu {
    match step
    case AdmitTask(id, t) => Admit(s, id, t)
    case Withdraw(id) => RemoveTask(s, id).0
    case Wake(id) => EnqueueWakeup(s, id)
    case DrainInbox => Drain(s).0
    case Take(now) => TakeNext(s, now).0
    case Tick(now) => OnTick(s, now).0
    case PreemptTrap(onStack, at) => SavePreempted(s, onStack, at).0
    case BoundaryTrap(onStack, action, at) => Boundary(s, onStack, action, at).0
    case MigrateOut(now, threshold, relax) => TakeMigratable(s, now, threshold, relax).0
    case Poke(id, t) => SetTask(s, id, t)
  }

  lemma StepInv(s: Cpu, step: Step)
    requires Inv(s) && Enabled(s, step) && Fits(Apply(s, step))
    ensures Inv(Apply(s, step))
  {
    match step
    case AdmitTask(id, t) => AdmitInv(s, id, t);
    case Withdraw(id) =>
      if id in s.tasks {
        assert TaskShape(s, id, {});
        BlockedFloats(s, id);
        RemoveTaskInv(s, id);
      }
    case Wake(id) => EnqueueWakeupInv(s, id);
    case DrainInbox => DrainInv(s);
    case Take(now) => TakeNextInv(s, now);
    case Tick(now) => OnTickInv(s, now);
    case PreemptTrap(onStack, at) => SavePreemptedInv(s, onStack, at);
    case BoundaryTrap(onStack, action, at) => BoundaryInv(s, onStack, action, at);
    case MigrateOut(now, threshold, relax) => TakeMigratableInv(s, now, threshold, relax);
    case Poke(id, t) => FlagsShape(s, id, t, {});
  }

  ghost predicate Run(states: seq<Cpu>, steps: seq<Step>) {
    && |states| == |steps| + 1
    && (exists cpu: nat :: states[0] == NewCpu(cpu))
    && (forall i :: 0 <= i < |steps| ==> Enabled(states[i], steps[i]) && states[i + 1] == Apply(states[i], steps[i]))
  }

  lemma NewCpuInv(cpu: nat)
    ensures Inv(NewCpu(cpu)) && ClockAhead(NewCpu(cpu))
  {
    assert Shares(NewCpu(cpu).tasks) == map[];
  }

  lemma RunPrefix(states: seq<Cpu>, steps: seq<Step>)
    requires Run(states, steps) && steps != []
    ensures Run(states[..|steps|], steps[..|steps| - 1])
  {
    assert states[..|steps|][0] == states[0];
  }

  /** Every state of every run whose runnable load stays within `u64` satisfies the invariant. */
  lemma {:induction false} RunKeepsInv(states: seq<Cpu>, steps: seq<Step>)
    requires Run(states, steps) && forall s | s in states :: Fits(s)
    ensures forall s | s in states :: Inv(s)
    decreases |steps|
  {
    hide Inv, Fits, Apply, Enabled;
    if steps == [] {
      var cpu: nat :| states[0] == NewCpu(cpu);
      NewCpuInv(cpu);
    } else {
      var n := |steps|;
      RunPrefix(states, steps);
      RunKeepsInv(states[..n], steps[..n - 1]);
      assert states[n - 1] in states[..n];
      assert Fits(states[n]);
      StepInv(states[n - 1], steps[n - 1]);
      assert states == states[..n] + [states[n]];
    }
  }

  // ---- when the clock goes backwards

  /** The step makes a task leave whose eligibility still lies ahead of the clock. */
  predicate LeavesEarly(s: Cpu, step: Step) {
    match step
    case BoundaryTrap(onStack, action, at) =>
      && onStack && action != Outcome(Yielded) && s.current.Some? && s.current.value in s.tasks
      && var id := s.current.value;
         var s1 := RecordStop(AccountSince(s, id, at).0, id, at);
         id in s1.tasks && s1.tasks[id].meta.veligible > s1.vtime
    case MigrateOut(now, threshold, relax) =>
      var choice := ChooseMigratable(s, now, threshold, relax);
      choice.Some? && choice.value in s.tasks && s.tasks[choice.value].meta.veligible > s.vtime
    case _ => false
  }

  /** The clock does not go back, and a truthful eligible tree stays truthful. */
  ghost predicate Advances(s: Cpu, r: Cpu) {
    s.vtime <= r.vtime && (ClockAhead(s) ==> ClockAhead(r))
  }

  lemma SameTreeAdvances(s: Cpu, r: Cpu)
    requires s.vtime <= r.vtime
    requires forall id | id in r.eligible && id in r.tasks ::
               id in s.eligible && id in s.tasks && s.tasks[id].meta.veligible == r.tasks[id].meta.veligible
    ensures Advances(s, r)
  {
  }

  lemma EnqueueAdvances(s: Cpu, id: TaskId, reason: ReadyReason)
    requires Shape(s, {id}) && id in s.tasks
    ensures Advances(s, Enqueue(s, id, reason)) && Enqueue(s, id, reason).vtime == s.vtime
  {
    var r := Enqueue(s, id, reason);
    var r0 := r.(eligible := s.eligible);
    OrderedKept(s.tasks, r.tasks, ByDeadline, s.eligible);
    InsertOrdered(r.tasks, ByDeadline, s.eligible, id);
    forall x | x in r.eligible && x in r.tasks && x != id
      ensures x in s.eligible && x in s.tasks && s.tasks[x].meta.veligible == r.tasks[x].meta.veligible {
    }
  }

  lemma AdmitAdvances(s: Cpu, id: TaskId, t: Task)
    requires Inv(s) && Admissible(t)
    ensures Advances(s, Admit(s, id, t))
  {
    if id !in s.tasks && (t.hasRunnable || Ready(t)) {
      var t1 := t.(meta := Refreshed(s.vtime, t.meta.(cpuId := s.cpuId)));
      var s1 := SetTask(s, id, t1);
      forall x | x in s.tasks ensures TaskShape(s, x, {id}) { assert TaskShape(s, x, {}); }
      SetTaskShape(s, id, t1, {id});
      var s2 := if Ready(t) then AddWeight(s1, t1) else s1;
      ClockShape(s1, s2, {id});
      SameTreeAdvances(s, s2);
      EnqueueAdvances(s2, id, if t.state.sched == PreemptReady then Preempt else Async);
    }
  }

  lemma ActivateAdvances(s: Cpu, id: TaskId)
    requires Shape(s, {})
    ensures Advances(s, Activate(s, id).0)
  {
    if id in s.tasks && !Ready(s.tasks[id]) {
      var t := s.tasks[id];
      assert TaskShape(s, id, {});
      var s0 := SetTask(s, id, t.(reason := Async));
      FlagsShape(s, id, t.(reason := Async), {});
      BlockedFloats(s0, id);
      var state := t.state.(sched := ReadyAs(t.reason));
      var s1 := Transition(s0, id, state);
      TransitionShape(s0, id, state);
      var s2 := if t.started then SetTask(s1, id, s1.tasks[id].(migrationReady := true)) else s1;
      if t.started { FlagsShape(s1, id, s1.tasks[id].(migrationReady := true), {id}); }
      SameTreeAdvances(s, s2);
      EnqueueAdvances(s2, id, t.reason);
    }
  }

  lemma PopAdvances(s: Cpu)
    requires Inv(s) && s.inbox != []
    ensures Advances(s, PopWakeup(s).0)
  {
    var id := s.inbox[0];
    var s1 := s.(inbox := s.inbox[1..]);
    ClockShape(s, s1, {});
    var s2 := if id in s1.tasks then SetTask(s1, id, s1.tasks[id].(wakeQueued := false)) else s1;
    if id in s1.tasks { FlagsShape(s1, id, s2.tasks[id], {}); }
    SameTreeAdvances(s, s2);
    ActivateAdvances(s2, id);
  }

  lemma {:induction false} DrainAdvances(s: Cpu)
    requires Inv(s) && Fits(Drain(s).0)
    ensures Advances(s, Drain(s).0)
    decreases |s.inbox|
  {
    hide PopWakeup;
    if s.inbox != [] {
      var s1 := PopWakeup(s).0;
      DrainLoad(s1);
      PopKeeps(s, s1);
      DrainAdvances(s1);
    }
  }

  lemma PopKeeps(s: Cpu, s1: Cpu)
    requires Inv(s) && s.inbox != [] && s1 == PopWakeup(s).0 && Fits(s1)
    ensures Inv(s1) && Advances(s, s1) && |s1.inbox| < |s.inbox|
  {
    hide PopWakeup;
    PopInbox(s);
    PopAdvances(s);
    PopWakeupInv(s);
  }

  lemma TakeAdvances(s: Cpu, now: Nanos)
    requires Inv(s)
    ensures Advances(s, TakeNext(s, now).0)
  {
    PromoteKeeps(s);
    JumpSplits(s);
    PromoteOrJumpInv(s);
    var r := PromoteOrJump(s);
    if r.eligible != [] { FrontLeaves(r.tasks, ByDeadline, r.eligible); }
    SameTreeAdvances(r, TakeNext(s, now).0);
  }

  lemma AccountAdvances(s: Cpu, id: TaskId, at: Option<Nanos>)
    requires Inv(s)
    ensures Advances(s, AccountSince(s, id, at).0)
  {
    SameTreeAdvances(s, AccountSince(s, id, at).0);
  }

  lemma TickAdvances(s: Cpu, now: Nanos)
    requires Inv(s) && Fits(OnTick(s, now).0)
    ensures Advances(s, OnTick(s, now).0)
  {
    hide AccountSince, ShouldPreempt, Inv;
    var s1 := Drain(s).0;
    var s2 := if s1.current == None then s1 else AccountSince(s1, s1.current.value, Some(now)).0;
    PreemptKeepsTasks(s2);
    AccountSinceTasks(s1, now);
    DrainInv(s);
    DrainAdvances(s);
    if s1.current.Some? {
      AccountSinceInv(s1, s1.current.value, Some(now));
      AccountAdvances(s1, s1.current.value, Some(now));
    }
    PreemptAdvances(s2);
  }

  lemma PreemptKeepsTasks(s: Cpu)
    ensures ShouldPreempt(s).0.tasks == s.tasks
  {
    PromoteFields(s);
  }

  lemma PreemptAdvances(s: Cpu)
    requires Inv(s)
    ensures Advances(s, ShouldPreempt(s).0)
  {
    PromoteFields(s);
    PromoteSplits(s);
  }

  lemma RequeueAdvances(s: Cpu, reason: ReadyReason)
    requires Inv(s)
    ensures Advances(s, RequeueCurrent(s, reason).0) && RequeueCurrent(s, reason).0.vtime == s.vtime
  {
    if s.current.Some? {
      StepOff(s);
      var id := s.current.value;
      var s2 := SetTask(s.(current := None), id, StopClock(s.tasks[id]));
      var state := s2.tasks[id].state.(sched := ReadyAs(reason));
      TransitionShape(s2, id, state);
      SameTreeAdvances(s, Transition(s2, id, state));
      EnqueueAdvances(Transition(s2, id, state), id, reason);
    }
  }

  lemma RequeueMarkedAdvances(s: Cpu, mark: ReadyReason, reason: ReadyReason)
    requires Inv(s) && s.current.Some? && s.current.value in s.tasks
    ensures Advances(s, RequeueCurrent(SetTask(s, s.current.value, s.tasks[s.current.value].(reason := mark)), reason).0)
  {
    var id := s.current.value;
    var s1 := SetTask(s, id, s.tasks[id].(reason := mark));
    FlagsShape(s, id, s.tasks[id].(reason := mark), {});
    SameTreeAdvances(s, s1);
    RequeueAdvances(s1, reason);
  }

  lemma LeaveAdvances(s: Cpu, exit: Option<TaskExit>)
    requires Inv(s) && s.current.Some? && s.current.value in s.tasks
    requires s.tasks[s.current.value].meta.veligible <= s.vtime
    ensures Advances(s, LeaveCurrent(s, exit).0)
    ensures Advances(s, RemoveTask(LeaveCurrent(s, exit).0, s.current.value).0)
  {
    LeaveEffect(s, exit);
    var r := LeaveCurrent(s, exit).0;
    SameTreeAdvances(s, r);
    SameTreeAdvances(r, RemoveTask(r, s.current.value).0);
  }

  lemma TrapPrefixAdvances(s: Cpu, at: Option<Nanos>)
    requires Inv(s) && s.current.Some?
    ensures Advances(s, RecordStop(AccountSince(s, s.current.value, at).0, s.current.value, at))
  {
    var id := s.current.value;
    AccountAdvances(s, id, at);
    SameTreeAdvances(AccountSince(s, id, at).0, RecordStop(AccountSince(s, id, at).0, id, at));
  }

  lemma BoundaryAdvances(s: Cpu, onStack: bool, action: BoundaryAction, at: Option<Nanos>)
    requires Inv(s) && !LeavesEarly(s, BoundaryTrap(onStack, action, at))
    ensures Advances(s, Boundary(s, onStack, action, at).0)
  {
    if s.current.Some? && onStack {
      TrapPrefixInv(s, at);
      TrapPrefixAdvances(s, at);
      var s1 := RecordStop(AccountSince(s, s.current.value, at).0, s.current.value, at);
      match action
      case CancelBoundary => LeaveAdvances(s1, Some(Cancelled));
      case Outcome(Exited(exit)) => LeaveAdvances(s1, Some(exit));
      case Outcome(Parked) => LeaveAdvances(s1, None);
      case Outcome(Yielded) => RequeueMarkedAdvances(s1, Async, s1.tasks[s1.current.value].reason);
    }
  }

  lemma MigrateAdvances(s: Cpu, now: Nanos, threshold: Nanos, relax: bool)
    requires Inv(s) && !LeavesEarly(s, MigrateOut(now, threshold, relax))
    ensures Advances(s, TakeMigratable(s, now, threshold, relax).0)
  {
    ChooseMigratableFound(s, now, threshold, relax);
    var choice := ChooseMigratable(s, now, threshold, relax);
    if choice.Some? {
      assert Queued(s, choice.value);
      WithoutOrdered(s.tasks, ByDeadline, s.eligible, choice.value);
      SameTreeAdvances(s, TakeMigratable(s, now, threshold, relax).0);
    }
  }

  /** The clock goes back only when a task leaves early. */
  lemma StepAdvances(s: Cpu, step: Step)
    requires Inv(s) && Enabled(s, step) && Fits(Apply(s, step)) && !LeavesEarly(s, step)
    ensures Advances(s, Apply(s, step))
  {
    match step
    case AdmitTask(id, t) => AdmitAdvances(s, id, t);
    case Withdraw(id) => SameTreeAdvances(s, Apply(s, step));
    case Wake(id) => SameTreeAdvances(s, Apply(s, step));
    case DrainInbox => DrainAdvances(s);
    case Take(now) => TakeAdvances(s, now);
    case Tick(now) => TickAdvances(s, now);
    case PreemptTrap(onStack, at) =>
      if s.current.Some? && onStack {
        TrapPrefixInv(s, at);
        TrapPrefixAdvances(s, at);
        RequeueMarkedAdvances(RecordStop(AccountSince(s, s.current.value, at).0, s.current.value, at), Preempt, Preempt);
      }
    case BoundaryTrap(onStack, action, at) => BoundaryAdvances(s, onStack, action, at);
    case MigrateOut(now, threshold, relax) => MigrateAdvances(s, now, threshold, relax);
    case Poke(id, t) => SameTreeAdvances(s, Apply(s, step));
  }

  /**
   On every run in which no task leaves early the clock is monotone and each task in the eligible tree has
   veligible <= vtime, as `debug_verify` demands.
   */
  lemma {:induction false} RunKeepsClockAhead(states: seq<Cpu>, steps: seq<Step>)
    requires Run(states, steps) && forall s | s in states :: Fits(s)
    requires forall i :: 0 <= i < |steps| ==> !LeavesEarly(states[i], steps[i])
    ensures forall s | s in states :: ClockAhead(s)
    ensures forall i | 0 <= i < |steps| :: states[i].vtime <= states[i + 1].vtime
  {
    RunKeepsInv(states, steps);
    forall i | 0 <= i < |steps| ensures Advances(states[i], states[i + 1]) {
      assert states[i] in states && states[i + 1] in states;
      StepAdvances(states[i], steps[i]);
    }
    var cpu: nat :| states[0] == NewCpu(cpu);
    NewCpuInv(cpu);
    AdvancesChain(states);
  }

  lemma {:induction false} AdvancesChain(states: seq<Cpu>)
    requires states != [] && ClockAhead(states[0])
    requires forall i | 0 <= i < |states| - 1 :: Advances(states[i], states[i + 1])
    ensures forall s | s in states :: ClockAhead(s)
  {
    if |states| > 1 {
      assert Advances(states[0], states[1]);
      forall i | 0 <= i < |states| - 2 ensures Advances(states[1..][i], states[1..][i + 1]) {
        assert Advances(states[i + 1], states[i + 2]);
      }
      AdvancesChain(states[1..]);
      assert states == [states[0]] + states[1..];
    }
  }

  // ---- fairness of accounting over a run

  /** What happens on a CPU whose set of ready tasks does not change. */
  datatype Act =
    | Charge(runtime: Nanos, now: Nanos)
    | Switch(reason: ReadyReason, now: Nanos)

  function Perform(s: Cpu, act: Act): Cpu {
    match act
    case Charge(runtime, now) => AccountCurrent(s, runtime, now)
    case Switch(reason, now) => TakeNext(RequeueCurrent(s, reason).0, now).0
  }

  /** No saturation, and no jump of the clock past an empty eligible tree. */
  predicate Plain(s: Cpu, act: Act) {
    match act
    case Charge(runtime, now) => s.current.Some? && s.current.value in s.tasks && AccountsExactly(s, runtime)
    case Switch(reason, now) => Perform(s, act).vtime == s.vtime
  }

  function After(s: Cpu, acts: seq<Act>): Cpu
    decreases |acts|
  {
    if acts == [] then s else After(Perform(s, acts[0]), acts[1..])
  }

  predicate AllPlain(s: Cpu, acts: seq<Act>)
    decreases |acts|
  {
    acts == [] || (Plain(s, acts[0]) && AllPlain(Perform(s, acts[0]), acts[1..]))
  }

  function Charges(acts: seq<Act>): nat {
    if acts == [] then 0 else (if acts[0].Charge? then 1 else 0) + Charges(acts[1..])
  }

  lemma SwitchKeepsBalance(s: Cpu, reason: ReadyReason, now: Nanos)
    requires Inv(s)
    ensures var r := Perform(s, Switch(reason, now));
            Inv(r) && ReadyLoad(r.tasks) == ReadyLoad(s.tasks) && Service(r.tasks) == Service(s.tasks)
  {
    hide Keyed;
    var q := RequeueCurrent(s, reason).0;
    if s.current.Some? {
      RequeueLoad(s, reason);
      RequeueService(s, reason);
    }
    RequeueInv(s, reason);
    TakeNextInv(q, now);
    TakeService(q, now);
  }

  lemma RequeueService(s: Cpu, reason: ReadyReason)
    requires Inv(s) && s.current.Some?
    ensures Service(RequeueCurrent(s, reason).0.tasks) == Service(s.tasks)
  {
    StepOff(s);
    var id := s.current.value;
    var s2 := SetTask(s.(current := None), id, StopClock(s.tasks[id]));
    var state := s2.tasks[id].state.(sched := ReadyAs(reason));
    var s3 := Transition(s2, id, state);
    ServiceKept(s.tasks, id, s2.tasks[id]);
    ServiceKept(s2.tasks, id, s3.tasks[id]);
    EnqueueService(s3, id, reason);
  }

  lemma EnqueueService(s: Cpu, id: TaskId, reason: ReadyReason)
    requires id in s.tasks && Ready(s.tasks[id])
    ensures Service(Enqueue(s, id, reason).tasks) == Service(s.tasks)
  {
    var r := Enqueue(s, id, reason);
    assert r.tasks == s.tasks[id := r.tasks[id]];
    ServiceKept(s.tasks, id, r.tasks[id]);
  }

  lemma ServiceKept(tasks: map<TaskId, Task>, id: TaskId, t: Task)
    requires id in tasks && Share(t) == Share(tasks[id]) && t.meta.vruntime == tasks[id].meta.vruntime
    requires Ready(t) <==> Ready(tasks[id])
    ensures Service(tasks[id := t]) == Service(tasks)
  {
    ServiceSet(tasks, id, t);
  }

  lemma TakeService(s: Cpu, now: Nanos)
    requires Inv(s)
    ensures var r := TakeNext(s, now).0;
            ReadyLoad(r.tasks) == ReadyLoad(s.tasks) && Service(r.tasks) == Service(s.tasks)
  {
    PromoteKeeps(s);
    var (r, picked) := TakeNext(s, now);
    if picked.Some? {
      var id := picked.value;
      assert r.tasks == s.tasks[id := r.tasks[id]];
      LoadKept(s.tasks, id, r.tasks[id]);
      ServiceKept(s.tasks, id, r.tasks[id]);
    }
  }

  /**
   Over any sequence of charges and task switches on a fixed ready set of total load W, W times the growth of
   the clock and the weighted growth of virtual runtime differ by at most n * (W - 1) after n charges.
   */
  lemma {:induction false} RunIsFair(s: Cpu, acts: seq<Act>)
    requires Inv(s) && AllPlain(s, acts) && ReadyLoad(s.tasks) > 0
    ensures var r := After(s, acts);
            var w := ReadyLoad(s.tasks);
            && Inv(r) && ReadyLoad(r.tasks) == w
            && -(Charges(acts) * (w - 1)) <= Imbalance(r) - Imbalance(s) <= Charges(acts) * (w - 1)
            && Imbalance(r) - Imbalance(s) == w * (r.vtime - s.vtime) - (Service(r.tasks) - Service(s.tasks))
    decreases |acts|
  {
    hide Perform, Plain, Inv, Imbalance, ReadyLoad, Service;
    var w := ReadyLoad(s.tasks);
    if acts != [] {
      var s1 := Perform(s, acts[0]);
      ActIsFair(s, acts[0]);
      RunIsFair(s1, acts[1..]);
      MulSum(Charges(acts), if acts[0].Charge? then 1 else 0, Charges(acts[1..]), w - 1);
    }
    ImbalanceGrowth(s, After(s, acts));
  }

  lemma ActIsFair(s: Cpu, act: Act)
    requires Inv(s) && Plain(s, act)
    ensures var r := Perform(s, act);
            var slack := if act.Charge? then ReadyLoad(s.tasks) - 1 else 0;
            Inv(r) && ReadyLoad(r.tasks) == ReadyLoad(s.tasks) && -slack <= Imbalance(r) - Imbalance(s) <= slack
  {
    match act {
      case Charge(runtime, now) =>
        AccountInv(s, runtime, now);
        AccountingIsFair(s, runtime, now);
      case Switch(reason, now) =>
        SwitchKeepsBalance(s, reason, now);
    }
  }

  lemma ImbalanceGrowth(s: Cpu, r: Cpu)
    requires ReadyLoad(r.tasks) == ReadyLoad(s.tasks)
    ensures Imbalance(r) - Imbalance(s)
         == ReadyLoad(s.tasks) * (r.vtime - s.vtime) - (Service(r.tasks) - Service(s.tasks))
  {
    Distribute(ReadyLoad(s.tasks), s.vtime, r.vtime - s.vtime);
  }
}
