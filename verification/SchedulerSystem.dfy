/** All CPUs together: tasks move between schedulers without being lost, duplicated or reweighed. */
module SchedulerSystem {
  import opened Prelude
  import opened Eevdf
  import opened RunQueue
  import opened RunQueueInvariant
  import opened SchedulerRuns

  /** `LoadBalancer::migrate` clears the flag between taking a task from one CPU and admitting it on another. */
  function InTransit(t: Task): Task {
    t.(migrationReady := false)
  }

  lemma TakeMigratableEffect(s: Cpu, now: Nanos, threshold: Nanos, relax: bool)
    requires Inv(s)
    ensures var (r, taken) := TakeMigratable(s, now, threshold, relax);
            && r.cpuId == s.cpuId && r.current == s.current
            && (taken == None ==> r == s)
            && (taken.Some? ==>
                  var (id, t) := taken.value;
                  && id in s.tasks && s.current != Some(id) && r.tasks == s.tasks - {id}
                  && Ready(t) && Admissible(t) && Load(t) == Load(s.tasks[id])
                  && t.meta.weight == s.tasks[id].meta.weight && t.meta.vruntime == s.tasks[id].meta.vruntime
                  && r.totalWeight == s.totalWeight - Load(t))
  {
    ChooseMigratableFound(s, now, threshold, relax);
    var choice := ChooseMigratable(s, now, threshold, relax);
    if choice.Some? {
      var id := choice.value;
      assert Queued(s, id);
      assert TaskShape(s, id, {});
      LoadSet(s.tasks, id, s.tasks[id]);
    }
  }

  /** Queueing rewrites one record: readiness and virtual times, never the weight or the virtual runtime. */
  lemma EnqueueEffect(s: Cpu, id: TaskId, reason: ReadyReason)
    ensures var r := Enqueue(s, id, reason);
            && r.cpuId == s.cpuId && r.current == s.current && r.tasks.Keys == s.tasks.Keys
            && (id in s.tasks ==>
                  && r.tasks == s.tasks[id := r.tasks[id]] && Ready(r.tasks[id])
                  && r.tasks[id].meta.weight == s.tasks[id].meta.weight
                  && r.tasks[id].meta.vruntime == s.tasks[id].meta.vruntime
                  && (Ready(s.tasks[id]) ==> r.totalWeight == s.totalWeight))
  {
  }

  lemma AdmitRecord(s: Cpu, id: TaskId, t: Task)
    requires id !in s.tasks && Ready(t)
    ensures var r := Admit(s, id, t);
            && id in r.tasks && r.tasks == s.tasks[id := r.tasks[id]] && r.current == s.current
            && Ready(r.tasks[id])
            && r.tasks[id].meta.weight == t.meta.weight && r.tasks[id].meta.vruntime == t.meta.vruntime
  {
    hide Enqueue;
    var t1 := t.(meta := Refreshed(s.vtime, t.meta.(cpuId := s.cpuId)));
    EnqueueEffect(AddWeight(SetTask(s, id, t1), t1), id, if t.state.sched == PreemptReady then Preempt else Async);
  }

  lemma AdmitReadyEffect(s: Cpu, id: TaskId, t: Task)
    requires Inv(s) && id !in s.tasks && Ready(t) && Admissible(t) && Fits(Admit(s, id, t))
    ensures var r := Admit(s, id, t);
            && Inv(r) && id in r.tasks && r.tasks == s.tasks[id := r.tasks[id]] && Queued(r, id)
            && r.tasks[id].meta.weight == t.meta.weight && r.tasks[id].meta.vruntime == t.meta.vruntime
            && r.totalWeight == s.totalWeight + Load(t)
  {
    hide Admit;
    AdmitInv(s, id, t);
    AdmitRecord(s, id, t);
    var r := Admit(s, id, t);
    LoadSet(s.tasks, id, r.tasks[id]);
    assert s.tasks - {id} == s.tasks;
    assert TaskShape(r, id, {});
  }

  /**
   Moving a task from CPU a to CPU b keeps both invariants, leaves the task ready, queued and in exactly one
   table with its weight and virtual runtime, touches no other task, and conserves the total weight.
   */
  lemma MigrationMoves(a: Cpu, b: Cpu, now: Nanos, threshold: Nanos, relax: bool)
    requires Inv(a) && Inv(b) && a.tasks.Keys !! b.tasks.Keys
    requires var taken := TakeMigratable(a, now, threshold, relax).1;
             taken.Some? && Fits(Admit(b, taken.value.0, InTransit(taken.value.1)))
    ensures var (a', taken) := TakeMigratable(a, now, threshold, relax);
            var (id, t) := taken.value;
            var b' := Admit(b, id, InTransit(t));
            && Inv(a') && Inv(b')
            && id in a.tasks && a'.tasks == a.tasks - {id}
            && id in b'.tasks && b'.tasks == b.tasks[id := b'.tasks[id]] && Queued(b', id)
            && b'.tasks[id].meta.weight == a.tasks[id].meta.weight
            && b'.tasks[id].meta.vruntime == a.tasks[id].meta.vruntime
            && a'.totalWeight + b'.totalWeight == a.totalWeight + b.totalWeight
  {
    hide TakeMigratable, Admit, Inv;
    var (id, t) := TakeMigratable(a, now, threshold, relax).1.value;
    TakeMigratableInv(a, now, threshold, relax);
    TakeMigratableEffect(a, now, threshold, relax);
    assert id !in b.tasks;
    AdmitReadyEffect(b, id, InTransit(t));
  }

  // ---- runs of the whole machine

  datatype System = System(cpus: seq<Cpu>, transit: map<TaskId, Task>)

  datatype SystemStep =
    | Local(cpu: nat, step: Step)
    | Spawn(cpu: nat, id: TaskId, task: Task)
    | Export(cpu: nat, now: Nanos, threshold: Nanos, relax: bool)
    | Import(cpu: nat, id: TaskId)

  predicate Known(sys: System, id: TaskId) {
    id in sys.transit || exists i :: 0 <= i < |sys.cpus| && id in sys.cpus[i].tasks
  }

  ghost predicate StepEnabled(sys: System, step: SystemStep) {
    && step.cpu < |sys.cpus|
    && match step
       case Local(c, local) => !local.AdmitTask? && !local.MigrateOut? && Enabled(sys.cpus[c], local)
       case Spawn(c, id, t) => !Known(sys, id) && Admissible(t)
       case Export(_, _, _, _) => true
       case Import(c, id) => id in sys.transit
  }

  function StepApply(sys: System, step: SystemStep): System
    requires step.cpu < |sys.cpus|
  {
    var c := step.cpu;
    match step
    case Local(_, local) => sys.(cpus := sys.cpus[c := Apply(sys.cpus[c], local)])
    case Spawn(_, id, t) => sys.(cpus := sys.cpus[c := Admit(sys.cpus[c], id, t)])
    case Export(_, now, threshold, relax) =>
      var (r, taken) := TakeMigratable(sys.cpus[c], now, threshold, relax);
      if taken == None then sys.(cpus := sys.cpus[c := r])
      else System(sys.cpus[c := r], sys.transit[taken.value.0 := InTransit(taken.value.1)])
    case Import(_, id) =>
      if id !in sys.transit then sys
      else System(sys.cpus[c := Admit(sys.cpus[c], id, sys.transit[id])], sys.transit - {id})
  }

  ghost predicate CpuInv(sys: System, i: nat)
    requires i < |sys.cpus|
  {
    && Inv(sys.cpus[i]) && sys.cpus[i].cpuId == i
    && (forall id | id in sys.cpus[i].tasks :: id !in sys.transit)
  }

  /** Each CPU is consistent, and every task is in exactly one table or in transit. */
  ghost predicate SystemInv(sys: System) {
    && (forall i: nat | i < |sys.cpus| :: CpuInv(sys, i))
    && (forall i, j, id | 0 <= i < j < |sys.cpus| && id in sys.cpus[i].tasks :: id !in sys.cpus[j].tasks)
    && (forall id | id in sys.transit :: Ready(sys.transit[id]) && Admissible(sys.transit[id]))
  }

  ghost predicate SystemFits(sys: System) {
    forall i | 0 <= i < |sys.cpus| :: Fits(sys.cpus[i])
  }

  /** Same tasks, same CPU. */
  predicate SameKeys(s: Cpu, r: Cpu) {
    r.tasks.Keys == s.tasks.Keys && r.cpuId == s.cpuId
  }

  lemma RequeueKeys(s: Cpu, reason: ReadyReason)
    ensures SameKeys(s, RequeueCurrent(s, reason).0)
  {
    hide Enqueue;
    if s.current.Some? && s.current.value in s.tasks {
      var id := s.current.value;
      var s2 := SetTask(s.(current := None), id, StopClock(s.tasks[id]));
      EnqueueEffect(Transition(s2, id, s2.tasks[id].state.(sched := ReadyAs(reason))), id, reason);
    }
  }

  lemma ActivateKeys(s: Cpu, id: TaskId)
    ensures SameKeys(s, Activate(s, id).0)
  {
    hide Enqueue;
    if id in s.tasks && !Ready(s.tasks[id]) {
      var t := s.tasks[id];
      var s1 := Transition(SetTask(s, id, t.(reason := Async)), id, t.state.(sched := ReadyAs(t.reason)));
      EnqueueEffect(if t.started then SetTask(s1, id, s1.tasks[id].(migrationReady := true)) else s1, id, t.reason);
    }
  }

  lemma {:induction false} DrainKeys(s: Cpu)
    ensures SameKeys(s, Drain(s).0)
    decreases |s.inbox|
  {
    if s.inbox != [] {
      PopInbox(s);
      PopKeys(s);
      hide PopWakeup;
      DrainKeys(PopWakeup(s).0);
    }
  }

  lemma PopKeys(s: Cpu)
    requires s.inbox != []
    ensures SameKeys(s, PopWakeup(s).0)
  {
    hide Activate;
    var id := s.inbox[0];
    var s1 := s.(inbox := s.inbox[1..]);
    ActivateKeys(if id in s1.tasks then SetTask(s1, id, s1.tasks[id].(wakeQueued := false)) else s1, id);
  }

  lemma TickKeys(s: Cpu, now: Nanos)
    ensures SameKeys(s, OnTick(s, now).0)
  {
    hide Drain, Promote;
    DrainKeys(s);
    var s1 := Drain(s).0;
    PromoteFields(if s1.current == None then s1 else AccountSince(s1, s1.current.value, Some(now)).0);
  }

  lemma TrapPrefixKeys(s: Cpu, id: TaskId, at: Option<Nanos>)
    ensures SameKeys(s, RecordStop(AccountSince(s, id, at).0, id, at))
  {
  }

  lemma LeaveKeys(s: Cpu, exit: Option<TaskExit>, id: TaskId)
    ensures SameKeys(s, LeaveCurrent(s, exit).0)
    ensures RemoveTask(LeaveCurrent(s, exit).0, id).0.tasks.Keys <= s.tasks.Keys
    ensures RemoveTask(LeaveCurrent(s, exit).0, id).0.cpuId == s.cpuId
  {
    hide DepartureVtime;
  }

  lemma PreemptKeys(s: Cpu, onStack: bool, at: Option<Nanos>)
    ensures SameKeys(s, SavePreempted(s, onStack, at).0)
  {
    hide RequeueCurrent, AccountSince, RecordStop;
    if s.current.Some? && s.current.value in s.tasks && onStack {
      var id := s.current.value;
      TrapPrefixKeys(s, id, at);
      var s1 := RecordStop(AccountSince(s, id, at).0, id, at);
      RequeueKeys(SetTask(s1, id, s1.tasks[id].(reason := Preempt)), Preempt);
    }
  }

  lemma BoundaryKeys(s: Cpu, onStack: bool, action: BoundaryAction, at: Option<Nanos>)
    ensures Boundary(s, onStack, action, at).0.tasks.Keys <= s.tasks.Keys
    ensures Boundary(s, onStack, action, at).0.cpuId == s.cpuId
  {
    hide RequeueCurrent, AccountSince, RecordStop, LeaveCurrent, RemoveTask;
    if s.current.Some? && s.current.value in s.tasks && onStack {
      var id := s.current.value;
      TrapPrefixKeys(s, id, at);
      var s1 := RecordStop(AccountSince(s, id, at).0, id, at);
      LeaveKeys(s1, Some(Cancelled), id);
      LeaveKeys(s1, None, id);
      match action {
        case Outcome(Exited(exit)) => LeaveKeys(s1, Some(exit), id);
        case _ =>
      }
      if s1.current.Some? && s1.current.value in s1.tasks {
        var c := s1.current.value;
        RequeueKeys(SetTask(s1, c, s1.tasks[c].(reason := Async)), s1.tasks[c].reason);
      }
    }
  }

  /** No step but admission brings a task into a table. */
  lemma StepKeys(s: Cpu, step: Step)
    requires Enabled(s, step) && !step.AdmitTask?
    ensures Apply(s, step).tasks.Keys <= s.tasks.Keys && Apply(s, step).cpuId == s.cpuId
  {
    hide Drain, OnTick, SavePreempted, Boundary, PromoteOrJump;
    match step
    case DrainInbox => DrainKeys(s);
    case Take(now) => PromoteKeeps(s);
    case Tick(now) => TickKeys(s, now);
    case PreemptTrap(onStack, at) => PreemptKeys(s, onStack, at);
    case BoundaryTrap(onStack, action, at) => BoundaryKeys(s, onStack, action, at);
    case _ =>
  }

  lemma AdmitKeys(s: Cpu, id: TaskId, t: Task)
    ensures Admit(s, id, t).tasks.Keys == s.tasks.Keys + {id} && Admit(s, id, t).cpuId == s.cpuId
  {
    hide Enqueue;
    if id !in s.tasks {
      var s1 := SetTask(s, id, t.(meta := Refreshed(s.vtime, t.meta.(cpuId := s.cpuId))));
      EnqueueEffect(if Ready(t) then AddWeight(s1, s1.tasks[id]) else s1, id,
                    if t.state.sched == PreemptReady then Preempt else Async);
    }
  }

  lemma OneTable(sys: System, i: nat, j: nat, id: TaskId)
    requires SystemInv(sys) && i < |sys.cpus| && j < |sys.cpus| && i != j && id in sys.cpus[i].tasks
    ensures id !in sys.cpus[j].tasks
  {
  }

  /** Replacing one CPU keeps the system invariant when its table gained only ids that were nowhere else. */
  lemma ReplaceCpu(sys: System, c: nat, r: Cpu, transit: map<TaskId, Task>)
    requires SystemInv(sys) && c < |sys.cpus|
    requires Inv(r) && r.cpuId == c
    requires forall id | id in r.tasks ::
               id !in transit && (id in sys.cpus[c].tasks || forall i | 0 <= i < |sys.cpus| :: id !in sys.cpus[i].tasks)
    requires forall id | id in transit :: Ready(transit[id]) && Admissible(transit[id])
    requires forall id | id in transit :: id in sys.transit || id in sys.cpus[c].tasks
    ensures SystemInv(System(sys.cpus[c := r], transit))
  {
    hide Inv;
    var new' := System(sys.cpus[c := r], transit);
    forall i: nat | i < |new'.cpus| ensures CpuInv(new', i) {
      assert CpuInv(sys, i);
      if i != c {
        forall id | id in new'.cpus[i].tasks ensures id !in transit {
          assert id !in sys.transit;
          assert id !in sys.cpus[c].tasks by { OneTable(sys, i, c, id); }
        }
      }
    }
    forall i, j, id | 0 <= i < j < |new'.cpus| && id in new'.cpus[i].tasks ensures id !in new'.cpus[j].tasks {
      if i != c && j != c {
        assert id !in sys.cpus[j].tasks;
      }
    }
  }

  lemma StepKeepsSystem(sys: System, step: SystemStep)
    requires SystemInv(sys) && StepEnabled(sys, step) && SystemFits(StepApply(sys, step))
    ensures SystemInv(StepApply(sys, step))
  {
    hide Inv, Apply, Admit, TakeMigratable, Enabled;
    var c := step.cpu;
    var s := sys.cpus[c];
    var post := StepApply(sys, step);
    assert CpuInv(sys, c);
    assert Fits(post.cpus[c]);
    match step
    case Local(_, local) =>
      StepInv(s, local);
      StepKeys(s, local);
      ReplaceCpu(sys, c, post.cpus[c], sys.transit);
    case Spawn(_, id, t) =>
      AdmitInv(s, id, t);
      AdmitKeys(s, id, t);
      ReplaceCpu(sys, c, post.cpus[c], sys.transit);
    case Export(_, now, threshold, relax) =>
      TakeMigratableInv(s, now, threshold, relax);
      TakeMigratableEffect(s, now, threshold, relax);
      ReplaceCpu(sys, c, post.cpus[c], post.transit);
    case Import(_, id) =>
      AdmitInv(s, id, sys.transit[id]);
      AdmitKeys(s, id, sys.transit[id]);
      forall i | 0 <= i < |sys.cpus| ensures id !in sys.cpus[i].tasks { assert CpuInv(sys, i); }
      ReplaceCpu(sys, c, post.cpus[c], post.transit);
  }

  // ---- weight

  function CpuWeights(cpus: seq<Cpu>): nat {
    if cpus == [] then 0 else CpuWeights(cpus[..|cpus| - 1]) + cpus[|cpus| - 1].totalWeight
  }

  ghost function Loads(tasks: map<TaskId, Task>): map<TaskId, int> {
    map id | id in tasks :: Load(tasks[id])
  }

  /** The weight on all CPUs, and that of the tasks on their way between two of them. */
  ghost function MachineWeight(sys: System): int {
    CpuWeights(sys.cpus) + Sum(Loads(sys.transit))
  }

  lemma {:induction false} WeightsReplace(cpus: seq<Cpu>, c: nat, r: Cpu)
    requires c < |cpus|
    ensures CpuWeights(cpus[c := r]) == CpuWeights(cpus) - cpus[c].totalWeight + r.totalWeight
    decreases |cpus|
  {
    var n := |cpus| - 1;
    if c < n {
      WeightsReplace(cpus[..n], c, r);
      assert cpus[c := r][..n] == cpus[..n][c := r];
    } else {
      assert cpus[c := r][..n] == cpus[..n];
    }
  }

  lemma LoadsInsert(tasks: map<TaskId, Task>, id: TaskId, t: Task)
    requires id !in tasks
    ensures Sum(Loads(tasks[id := t])) == Sum(Loads(tasks)) + Load(t)
    ensures tasks[id := t] - {id} == tasks
  {
    SumUpdate(Loads(tasks), id, Load(t));
    assert Loads(tasks[id := t]) == Loads(tasks)[id := Load(t)];
  }

  /** Sending a task off and taking it in each leave the machine's weight as it was. */
  lemma MigrationKeepsWeight(sys: System, step: SystemStep)
    requires SystemInv(sys) && StepEnabled(sys, step) && SystemFits(StepApply(sys, step))
    requires step.Export? || step.Import?
    ensures MachineWeight(StepApply(sys, step)) == MachineWeight(sys)
  {
    hide Inv, Admit, TakeMigratable;
    var c := step.cpu;
    var s, post := sys.cpus[c], StepApply(sys, step);
    assert CpuInv(sys, c);
    assert Fits(post.cpus[c]);
    WeightsReplace(sys.cpus, c, post.cpus[c]);
    match step
    case Export(_, now, threshold, relax) =>
      TakeMigratableEffect(s, now, threshold, relax);
      var taken := TakeMigratable(s, now, threshold, relax).1;
      if taken.Some? { LoadsInsert(sys.transit, taken.value.0, InTransit(taken.value.1)); }
    case Import(_, id) =>
      assert id !in s.tasks;
      AdmitReadyEffect(s, id, sys.transit[id]);
      var rest := sys.transit - {id};
      LoadsInsert(rest, id, sys.transit[id]);
      assert rest[id := sys.transit[id]] == sys.transit;
  }

  ghost predicate SystemRun(states: seq<System>, steps: seq<SystemStep>) {
    && |states| == |steps| + 1
    && states[0].transit == map[]
    && (forall i | 0 <= i < |states[0].cpus| :: states[0].cpus[i] == NewCpu(i))
    && (forall i | 0 <= i < |steps| ::
          StepEnabled(states[i], steps[i]) && states[i + 1] == StepApply(states[i], steps[i]))
  }

  /** In every state of every run of all CPUs, each CPU is consistent and each task is in exactly one place. */
  lemma {:induction false} SystemRunKeepsInv(states: seq<System>, steps: seq<SystemStep>, k: nat)
    requires SystemRun(states, steps) && k < |states|
    requires forall i | 0 <= i < |states| :: SystemFits(states[i])
    ensures SystemInv(states[k])
  {
    if k == 0 {
      forall i: nat | i < |states[0].cpus| ensures CpuInv(states[0], i) {
        NewCpuInv(i);
      }
    } else {
      SystemRunKeepsInv(states, steps, k - 1);
      assert StepEnabled(states[k - 1], steps[k - 1]);
      assert SystemFits(states[k]);
      StepKeepsSystem(states[k - 1], steps[k - 1]);
    }
  }
}
