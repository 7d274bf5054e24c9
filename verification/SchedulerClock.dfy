/**
 The clause of `debug_verify` (kernel/src/sched/mod.rs) that tasks in the eligible tree are eligible: exactly which
 steps break it, exactly which runs keep it, and runs in which it, and the conservation of lag, fail.
 */
module SchedulerClock {
  import opened Prelude
  import opened Arithmetic
  import opened Eevdf
  import opened RunQueue
  import opened RunQueueInvariant
  import opened Selection
  import opened VirtualTime
  import opened SchedulerRuns

  // ---- One departure

  /** How far a task may lie behind the clock and still be overtaken when `t` departs. */
  predicate Passes(s: Cpu, t: Task, veligible: Virtual)
    requires veligible <= s.vtime
  {
    var remaining := SatSub(s.totalWeight, Load(t));
    && remaining > 0 && t.meta.veligible > s.vtime && veligible > 0
    && SatMul(t.meta.veligible - s.vtime, Load(t)) >= remaining * (s.vtime - veligible + 1)
  }

  lemma DivAtLeast(x: nat, d: nat, k: nat)
    requires d > 0
    ensures Div(x, d) >= k <==> x >= d * k
  {
    DivBounds(x, d);
    if Div(x, d) >= k { MulLe(d, k, Div(x, d)); } else { MulLess(d, Div(x, d), k); }
  }

  /** A departure leaves the clock behind a past moment exactly when its lag, spread over the rest, reaches past it. */
  lemma DeparturePasses(s: Cpu, t: Task, veligible: Virtual)
    requires veligible <= s.vtime
    ensures DepartureVtime(s, t) < veligible <==> Passes(s, t, veligible)
  {
    var remaining := SatSub(s.totalWeight, Load(t));
    if remaining > 0 && t.meta.veligible > s.vtime {
      DivAtLeast(SatMul(t.meta.veligible - s.vtime, Load(t)), remaining, s.vtime - veligible + 1);
    }
  }

  /** The departure of `t` would leave some task of the eligible tree ahead of the clock. */
  ghost predicate Overtakes(s: Cpu, t: Task) {
    exists id | id in s.eligible && id in s.tasks && s.tasks[id].meta.veligible <= s.vtime ::
      Passes(s, t, s.tasks[id].meta.veligible)
  }

  /** `r` is `s` after the departure of `t`. */
  ghost predicate Departed(s: Cpu, t: Task, r: Cpu) {
    && r.vtime == DepartureVtime(s, t)
    && (forall id :: id in r.eligible && id in r.tasks ==> id in s.eligible && id in s.tasks)
    && (forall id | id in r.eligible && id in r.tasks && id in s.tasks ::
          r.tasks[id].meta.veligible == s.tasks[id].meta.veligible)
    && (forall id | id in s.eligible && id in s.tasks && s.tasks[id] != t :: id in r.eligible && id in r.tasks)
  }

  /** A tree that was truthful stays truthful under a departure exactly when nothing in it is overtaken. */
  lemma DepartureBreaks(s: Cpu, t: Task, r: Cpu)
    requires ClockAhead(s) && Departed(s, t, r)
    ensures ClockAhead(r) <==> !Overtakes(s, t)
  {
    forall id | id in s.eligible && id in s.tasks
      ensures DepartureVtime(s, t) < s.tasks[id].meta.veligible <==> Passes(s, t, s.tasks[id].meta.veligible)
    {
      DeparturePasses(s, t, s.tasks[id].meta.veligible);
    }
    hide DepartureVtime;
    if Overtakes(s, t) {
      var id :| id in s.eligible && id in s.tasks && Passes(s, t, s.tasks[id].meta.veligible);
      assert s.tasks[id] != t;
      assert r.tasks[id].meta.veligible > r.vtime;
    }
  }

  /** Blocking or exiting, with or without the removal that follows, breaks the clause exactly then. */
  lemma LeavingBreaks(s: Cpu, exit: Option<TaskExit>)
    requires Inv(s) && ClockAhead(s) && s.current.Some? && s.current.value in s.tasks
    ensures var r := LeaveCurrent(s, exit).0;
            && (ClockAhead(r) <==> !Overtakes(s, s.tasks[s.current.value]))
            && (ClockAhead(RemoveTask(r, s.current.value).0) <==> !Overtakes(s, s.tasks[s.current.value]))
  {
    LeaveDeparts(s, exit);
    hide LeaveCurrent, RemoveTask, Inv, Departed, ClockAhead, Overtakes;
    var id := s.current.value;
    var r := LeaveCurrent(s, exit).0;
    DepartureBreaks(s, s.tasks[id], r);
    DepartureBreaks(s, s.tasks[id], RemoveTask(r, id).0);
  }

  lemma LeaveDeparts(s: Cpu, exit: Option<TaskExit>)
    requires Inv(s) && s.current.Some? && s.current.value in s.tasks
    ensures var r := LeaveCurrent(s, exit).0;
            && Departed(s, s.tasks[s.current.value], r)
            && Departed(s, s.tasks[s.current.value], RemoveTask(r, s.current.value).0)
  {
    var id := s.current.value;
    LeaveEffect(s, exit);
    RemoveEffect(LeaveCurrent(s, exit).0, id);
    LeaveTree(s, exit);
    forall x | x in s.eligible ensures x in s.tasks && x != id { assert Queued(s, x); }
    hide LeaveCurrent, RemoveTask, Inv, DepartureVtime;
  }

  lemma LeaveTree(s: Cpu, exit: Option<TaskExit>)
    requires Inv(s) && s.current.Some? && s.current.value in s.tasks
    ensures var r := LeaveCurrent(s, exit).0;
            r.eligible == s.eligible && RemoveTask(r, s.current.value).0.eligible == s.eligible
  {
  }

  /** Migration breaks the clause exactly then. */
  lemma MigratingBreaks(s: Cpu, now: Nanos, threshold: Nanos, relax: bool)
    requires Inv(s) && ClockAhead(s)
    ensures var (r, taken) := TakeMigratable(s, now, threshold, relax);
            && (taken.Some? ==> taken.value.0 in s.tasks)
            && (ClockAhead(r) <==> taken == None || !Overtakes(s, s.tasks[taken.value.0]))
  {
    var (r, taken) := TakeMigratable(s, now, threshold, relax);
    MigrationEffect(s, now, threshold, relax);
    if taken.Some? {
      MigrateTree(s, now, threshold, relax);
      hide TakeMigratable, Inv, DepartureVtime, Overtakes;
      DepartureBreaks(s, s.tasks[taken.value.0], r);
    }
  }

  lemma MigrateTree(s: Cpu, now: Nanos, threshold: Nanos, relax: bool)
    requires Inv(s) && TakeMigratable(s, now, threshold, relax).1.Some?
    ensures var (r, taken) := TakeMigratable(s, now, threshold, relax);
            && (forall x | x in s.eligible :: x in s.tasks)
            && (forall x :: x in r.eligible <==> x in s.eligible && x != taken.value.0)
  {
    hide Keyed, ChooseMigratable;
    ChooseMigratableFound(s, now, threshold, relax);
    var id := TakeMigratable(s, now, threshold, relax).1.value.0;
    assert Queued(s, id);
    forall x | x in s.eligible ensures x in s.tasks { assert Queued(s, x); }
    WithoutOrdered(s.tasks, ByDeadline, s.eligible, id);
  }

  // ---- Steps and runs

  /** The guard, before the step, of the steps that break the clause. */
  ghost predicate Breaks(s: Cpu, step: Step) {
    match step
    case BoundaryTrap(onStack, action, at) =>
      && onStack && action != Outcome(Yielded) && s.current.Some? && s.current.value in s.tasks
      && var id := s.current.value;
         var s1 := RecordStop(AccountSince(s, id, at).0, id, at);
         id in s1.tasks && Overtakes(s1, s1.tasks[id])
    case MigrateOut(now, threshold, relax) =>
      var choice := ChooseMigratable(s, now, threshold, relax);
      choice.Some? && choice.value in s.tasks && Overtakes(s, s.tasks[choice.value])
    case _ => false
  }

  lemma BoundaryBreaks(s: Cpu, onStack: bool, action: BoundaryAction, at: Option<Nanos>)
    requires Inv(s) && ClockAhead(s) && LeavesEarly(s, BoundaryTrap(onStack, action, at))
    ensures ClockAhead(Boundary(s, onStack, action, at).0) <==> !Breaks(s, BoundaryTrap(onStack, action, at))
  {
    var id := s.current.value;
    TrapPrefixInv(s, at);
    TrapPrefixAdvances(s, at);
    var s1 := RecordStop(AccountSince(s, id, at).0, id, at);
    hide Inv, LeaveCurrent, RemoveTask, RecordStop, AccountSince, Overtakes, ClockAhead;
    match action
    case CancelBoundary => LeavingBreaks(s1, Some(Cancelled));
    case Outcome(Exited(exit)) => LeavingBreaks(s1, Some(exit));
    case Outcome(Parked) => LeavingBreaks(s1, None);
  }

  /** An early departure is the only thing that can break the clause, so the guard is exact for every step. */
  lemma StepBreaks(s: Cpu, step: Step)
    requires Inv(s) && Enabled(s, step) && Fits(Apply(s, step)) && ClockAhead(s)
    ensures ClockAhead(Apply(s, step)) <==> !Breaks(s, step)
  {
    if !LeavesEarly(s, step) {
      StepAdvances(s, step);
    } else {
      match step
      case BoundaryTrap(onStack, action, at) => BoundaryBreaks(s, onStack, action, at);
      case MigrateOut(now, threshold, relax) => MigratingBreaks(s, now, threshold, relax);
    }
  }

  /** A run keeps the clause in all its states exactly when none of its steps meets the guard. */
  lemma {:induction false} RunKeepsClauseIff(states: seq<Cpu>, steps: seq<Step>)
    requires Run(states, steps) && forall s | s in states :: Fits(s)
    ensures (forall i | 0 <= i < |states| :: ClockAhead(states[i]))
       <==> (forall i | 0 <= i < |steps| :: !Breaks(states[i], steps[i]))
    decreases |steps|
  {
    RunKeepsInv(states, steps);
    hide Inv, Fits, Apply, Enabled, ClockAhead, Breaks;
    if steps == [] {
      var cpu: nat :| states[0] == NewCpu(cpu);
      NewCpuInv(cpu);
    } else {
      var n := |steps| - 1;
      RunPrefix(states, steps);
      assert forall i | 0 <= i <= n :: states[..n + 1][i] == states[i];
      RunKeepsClauseIff(states[..n + 1], steps[..n]);
      assert states[n] in states && states[n + 1] in states;
      assert Enabled(states[n], steps[n]) && states[n + 1] == Apply(states[n], steps[n]);
      if ClockAhead(states[n]) { StepBreaks(states[n], steps[n]); }
    }
  }

  // ---- Runs in which it fails

  /** A task as `TaskSchedMeta::default` makes it, with a runnable installed. */
  const FRESH: Task := Task(TaskState(Blocked, None), Meta(1024, 0, 0, 0, 4_000_000, None, 0, 0), Async,
                            true, false, false, false, true, 0xFFFF_FFFF_FFFF_FFFF, 0)

  function Waiting(veligible: Virtual, vdeadline: Virtual): Task {
    FRESH.(state := TaskState(AsyncReady, None),
           meta := FRESH.meta.(veligible := veligible, vdeadline := vdeadline))
  }

  function Running(vruntime: Virtual, vdeadline: Virtual, stamp: Nanos): Task {
    var t := Waiting(vruntime, vdeadline);
    t.(meta := t.meta.(vruntime := vruntime, execStart := Some(stamp), execRuntime := stamp))
  }

  /** Two tasks are admitted, the first runs for 1000 ns, a third is admitted at the new clock, the first blocks. */
  const COUNTER_STEPS: seq<Step> := [AdmitTask(1, FRESH), AdmitTask(2, FRESH), Take(0), Tick(1000),
                                    AdmitTask(3, FRESH), BoundaryTrap(true, Outcome(Parked), None)]

  const COUNTER_RUN: seq<Cpu> :=
    var w := Waiting(0, 4_000_000);
    var ran := Running(1000, 4_001_000, 1000);
    var late := Waiting(500, 4_000_500);
    [NewCpu(0),
     Cpu(0, None, 0, 1024, map[1 := w], [1], [], []),
     Cpu(0, None, 0, 2048, map[1 := w, 2 := w], [1, 2], [], []),
     Cpu(0, Some(1), 0, 2048, map[1 := Running(0, 4_000_000, 0), 2 := w], [2], [], []),
     Cpu(0, Some(1), 500, 2048, map[1 := ran, 2 := w], [2], [], []),
     Cpu(0, Some(1), 500, 3072, map[1 := ran, 2 := w, 3 := late], [2, 3], [], []),
     Cpu(0, None, 250, 2048,
         map[1 := StopClock(ran).(state := TaskState(Blocked, None)), 2 := w, 3 := late], [2, 3], [], [])]

  ghost predicate CounterStep(i: nat)
    requires i < |COUNTER_STEPS|
  {
    Enabled(COUNTER_RUN[i], COUNTER_STEPS[i]) && COUNTER_RUN[i + 1] == Apply(COUNTER_RUN[i], COUNTER_STEPS[i])
  }

  lemma InsertLast(tasks: map<TaskId, Task>, order: Order, a: TaskId, id: TaskId)
    requires !Before(tasks, order, id, a)
    ensures Insert(tasks, order, [a], id) == [a, id]
  {
    assert [a][1..] == [];
  }

  lemma CounterAdmits()
    ensures CounterStep(0) && CounterStep(1)
  {
    InsertLast(COUNTER_RUN[2].tasks, ByDeadline, 1, 2);
    assert Admit(COUNTER_RUN[1], 2, FRESH).tasks == COUNTER_RUN[2].tasks;
  }

  lemma CounterRuns()
    ensures CounterStep(2) && CounterStep(3)
  {
    assert AccountCurrent(COUNTER_RUN[3], 1000, 1000) == COUNTER_RUN[4];
  }

  lemma CounterArrives()
    ensures CounterStep(4)
  {
    InsertLast(COUNTER_RUN[5].tasks, ByDeadline, 2, 3);
    assert Admit(COUNTER_RUN[4], 3, FRESH).tasks == COUNTER_RUN[5].tasks;
  }

  lemma CounterBlocks()
    ensures CounterStep(5)
  {
  }

  /**
   The clause of `debug_verify` that eligible tasks have veligible <= vtime is not an invariant: in this run the
   clock falls from 500 to 250 while task 3 sits in the eligible tree with veligible = 500.
   */
  lemma EligibleClauseFails()
    ensures Run(COUNTER_RUN, COUNTER_STEPS) && !ClockAhead(COUNTER_RUN[6])
    ensures COUNTER_RUN[5].vtime == 500 && COUNTER_RUN[6].vtime == 250
  {
    hide Apply, Enabled;
    CounterAdmits();
    CounterRuns();
    CounterArrives();
    CounterBlocks();
    var s := COUNTER_RUN[6];
    assert s.eligible[1] == 3 && s.tasks[3].meta.veligible == 500;
    forall i: nat | i < |COUNTER_STEPS| ensures CounterStep(i) {
      assert i == 0 || i == 1 || i == 2 || i == 3 || i == 4 || i == 5;
    }
  }

  /** The same start, but the first task runs one nanosecond longer and then blocks. */
  const LAG_STEPS: seq<Step> := COUNTER_STEPS[..3] + [Tick(1001), BoundaryTrap(true, Outcome(Parked), None)]

  const LAG_RUN: seq<Cpu> :=
    var w := Waiting(0, 4_000_000);
    var ran := Running(1001, 4_001_001, 1001);
    COUNTER_RUN[..4]
    + [Cpu(0, Some(1), 500, 2048, map[1 := ran, 2 := w], [2], [], []),
       Cpu(0, None, 0, 1024, map[1 := StopClock(ran).(state := TaskState(Blocked, None)), 2 := w], [2], [], [])]

  ghost predicate LagStep(i: nat)
    requires i < |LAG_STEPS|
  {
    Enabled(LAG_RUN[i], LAG_STEPS[i]) && LAG_RUN[i + 1] == Apply(LAG_RUN[i], LAG_STEPS[i])
  }

  lemma LagRunTicks()
    ensures LagStep(3)
  {
    assert AccountCurrent(LAG_RUN[3], 1001, 1001) == LAG_RUN[4];
  }

  lemma LagRunBlocks()
    ensures LagStep(4)
  {
  }

  lemma TwoTasks(t: Task, u: Task, v: int)
    ensures ReadyLoad(map[1 := t, 2 := u]) == Share(t) + Share(u)
    ensures Lag(map[1 := t, 2 := u], v) == LagShare(t, v) + LagShare(u, v)
  {
    var none: map<TaskId, Task> := map[];
    assert Shares(none) == map[] && Lags(none, v) == map[];
    LoadSet(none, 1, t);
    LagSet(none, v, 1, t);
    assert none[1 := t][2 := u] == map[1 := t, 2 := u] && none - {1} == none && none[1 := t] - {2} == none[1 := t];
    LoadSet(none[1 := t], 2, u);
    LagSet(none[1 := t], v, 2, u);
  }

  lemma LagRunIsRun()
    ensures Run(LAG_RUN, LAG_STEPS)
  {
    hide Apply, Enabled;
    CounterAdmits();
    CounterRuns();
    LagRunTicks();
    LagRunBlocks();
    forall i: nat | i < |LAG_STEPS| ensures LagStep(i) {
      assert i == 0 || i == 1 || i == 2 || i == 3 || i == 4;
      if i < 3 { assert CounterStep(i); }
    }
  }

  lemma LagRunLags()
    ensures Lag(LAG_RUN[4].tasks, 500) == -1024
    ensures Lag(LAG_RUN[5].tasks, 0) == 0 && ReadyLoad(LAG_RUN[5].tasks) == 1024
  {
    var ran, w := Running(1001, 4_001_001, 1001), Waiting(0, 4_000_000);
    var parked := StopClock(ran).(state := TaskState(Blocked, None));
    TwoTasks(ran, w, 500);
    TwoTasks(parked, w, 0);
    hide Lag, ReadyLoad;
    assert LAG_RUN[4].tasks == map[1 := ran, 2 := w];
    assert LAG_RUN[5].tasks == map[1 := parked, 2 := w];
  }

  /**
   Lag is not conserved by every departure: in this run, five steps from boot at default weights, the correction of 501
   saturates at a clock of 500, and the total lag moves by a whole unit of the remaining weight.
   */
  lemma LagIsLost()
    ensures Run(LAG_RUN, LAG_STEPS)
    ensures LAG_RUN[4].vtime == 500 && LAG_RUN[5].vtime == 0
    ensures !NoSaturation(LAG_RUN[4].vtime, LAG_RUN[4].tasks[1].meta.veligible, 1024, 1024)
    ensures !Within(Lag(LAG_RUN[5].tasks, 0), Lag(LAG_RUN[4].tasks, 500), ReadyLoad(LAG_RUN[5].tasks))
  {
    hide Run, Lag, ReadyLoad;
    LagRunIsRun();
    LagRunLags();
  }
}
