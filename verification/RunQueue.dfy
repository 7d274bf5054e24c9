/**
 The per-CPU EEVDF run queue as a value: the state of `Scheduler` (kernel/src/sched/scheduler.rs) and one
 function per operation of kernel/src/sched/mod.rs. The run trees are intrusive and keyed by the task's
 current metadata, so each is modelled by the sequence of ids in tree order.
 */
module RunQueue {
  import opened Prelude
  import opened Eevdf

  type TaskId = nat

  datatype TaskExit = Completed | ThreadExited(code: nat) | ProcessExited(code: nat) | Killed | Faulted | Cancelled

  datatype SchedState = PreemptReady | AsyncReady | Blocked

  datatype ReadyReason = Preempt | Async

  datatype TaskState = TaskState(sched: SchedState, terminal: Option<TaskExit>)

  datatype PollOutcome = Yielded | Parked | Exited(exit: TaskExit)

  datatype BoundaryAction = CancelBoundary | Outcome(outcome: PollOutcome)

  /** `TaskSchedMeta`. */
  datatype Meta = Meta(
    weight: Weight,
    vruntime: Virtual,
    veligible: Virtual,
    vdeadline: Virtual,
    slice: Nanos,
    execStart: Option<Nanos>,
    execRuntime: Nanos,
    cpuId: nat)

  /** The scheduler-visible part of one task: state, metadata, ready reason and placement flags. */
  datatype Task = Task(
    state: TaskState,
    meta: Meta,
    reason: ReadyReason,
    hasRunnable: bool,
    wakeQueued: bool,
    started: bool,
    migrationReady: bool,
    migrationAllowed: bool,
    lastCpu: nat,
    lastStop: nat)

  datatype Cpu = Cpu(
    cpuId: nat,
    current: Option<TaskId>,
    vtime: Virtual,
    totalWeight: Weight,
    tasks: map<TaskId, Task>,
    eligible: seq<TaskId>,
    ineligible: seq<TaskId>,
    inbox: seq<TaskId>)

  function NewCpu(cpuId: nat): Cpu {
    Cpu(cpuId, None, 0, 0, map[], [], [], [])
  }

  predicate Ready(t: Task) {
    t.state.sched != Blocked
  }

  function ReadyAs(reason: ReadyReason): SchedState {
    match reason
    case Preempt => PreemptReady
    case Async => AsyncReady
  }

  function Load(t: Task): Weight {
    AtLeastOne(t.meta.weight)
  }

  // ---- the two run trees

  datatype Order = ByDeadline | ByEligible

  function Key(tasks: map<TaskId, Task>, order: Order, id: TaskId): nat {
    if id !in tasks then 0
    else if order == ByDeadline then tasks[id].meta.vdeadline
    else tasks[id].meta.veligible
  }

  predicate Before(tasks: map<TaskId, Task>, order: Order, a: TaskId, b: TaskId) {
    Key(tasks, order, a) < Key(tasks, order, b) || (Key(tasks, order, a) == Key(tasks, order, b) && a < b)
  }

  function Insert(tasks: map<TaskId, Task>, order: Order, tree: seq<TaskId>, id: TaskId): seq<TaskId> {
    if tree == [] then [id]
    else if Before(tasks, order, id, tree[0]) then [id] + tree
    else [tree[0]] + Insert(tasks, order, tree[1..], id)
  }

  // ---- weight and virtual time

  function SetTask(s: Cpu, id: TaskId, t: Task): Cpu {
    s.(tasks := s.tasks[id := t])
  }

  function AddWeight(s: Cpu, t: Task): Cpu {
    s.(totalWeight := SatAdd(s.totalWeight, Load(t), MAX_U64))
  }

  function SubWeight(s: Cpu, t: Task): Cpu {
    s.(totalWeight := SatSub(s.totalWeight, Load(t)))
  }

  function Correction(vtime: Virtual, veligible: Virtual, weight: Weight, remaining: nat): Virtual
    requires remaining > 0
  {
    Div(SatMul(AbsDiff(vtime, veligible), weight), remaining)
  }

  /** The clock after a task leaves, `adjust_vtime_for_departure`. */
  function DepartureVtime(s: Cpu, t: Task): Virtual {
    var remaining := SatSub(s.totalWeight, Load(t));
    if remaining == 0 then s.vtime
    else
      var c := Correction(s.vtime, t.meta.veligible, Load(t), remaining);
      if s.vtime >= t.meta.veligible then SatAdd(s.vtime, c, MAX_U128) else SatSub(s.vtime, c)
  }

  function Depart(s: Cpu, t: Task): Cpu {
    SubWeight(s.(vtime := DepartureVtime(s, t)), t)
  }

  function Transition(s: Cpu, id: TaskId, state: TaskState): Cpu
    requires id in s.tasks
  {
    var t := s.tasks[id];
    var s1 := if !Ready(t) && state.sched != Blocked then AddWeight(s, t)
              else if Ready(t) && state.sched == Blocked then Depart(s, t)
              else s;
    SetTask(s1, id, t.(state := state))
  }

  function Refreshed(vtime: Virtual, meta: Meta): Meta {
    var e := Eligible(vtime, meta.vruntime);
    meta.(veligible := e, vdeadline := DeadlineFromEligible(AtLeastOne(meta.weight), meta.slice, e))
  }

  /** Fresh deadlines and the ready state for a task about to be queued. */
  function Prepare(s: Cpu, id: TaskId, reason: ReadyReason): (r: Cpu)
    requires id in s.tasks
    ensures id in r.tasks
  {
    var t := s.tasks[id];
    var s1 := SetTask(s, id, t.(meta := Refreshed(s.vtime, t.meta.(cpuId := s.cpuId))));
    var s2 := Transition(s1, id, t.state.(sched := ReadyAs(reason)));
    SetTask(s2, id, s2.tasks[id].(reason := Async))
  }

  /** Into the tree that the clock and the task's eligibility call for. */
  function Link(s: Cpu, id: TaskId): Cpu
    requires id in s.tasks
  {
    if s.tasks[id].meta.veligible <= s.vtime
    then s.(eligible := Insert(s.tasks, ByDeadline, s.eligible, id))
    else s.(ineligible := Insert(s.tasks, ByEligible, s.ineligible, id))
  }

  /** `insert_runnable_pointer`. */
  function Enqueue(s: Cpu, id: TaskId, reason: ReadyReason): Cpu {
    if id !in s.tasks then s else Link(Prepare(s, id, reason), id)
  }

  // ---- admission, removal, wakeups

  function Admit(s: Cpu, id: TaskId, t: Task): Cpu {
    if id in s.tasks then s
    else
      var t1 := t.(meta := Refreshed(s.vtime, t.meta.(cpuId := s.cpuId)));
      var s1 := SetTask(s, id, t1);
      if !t.hasRunnable && !Ready(t) then s1
      else
        var s2 := if Ready(t) then AddWeight(s1, t1) else s1;
        Enqueue(s2, id, if t.state.sched == PreemptReady then Preempt else Async)
  }

  function Without(q: seq<TaskId>, id: TaskId): seq<TaskId> {
    if q == [] then []
    else if q[0] == id then q[1..]
    else [q[0]] + Without(q[1..], id)
  }

  function RemoveTask(s: Cpu, id: TaskId): (Cpu, Option<Task>) {
    if id !in s.tasks then (s, None)
    else
      var t := s.tasks[id];
      var s1 := s.(tasks := s.tasks - {id}, inbox := if t.wakeQueued then Without(s.inbox, id) else s.inbox);
      (if Ready(t) then SubWeight(s1, t) else s1, Some(t.(wakeQueued := false)))
  }

  function EnqueueWakeup(s: Cpu, id: TaskId): Cpu {
    if id !in s.tasks || s.tasks[id].wakeQueued then s
    else SetTask(s, id, s.tasks[id].(wakeQueued := true)).(inbox := s.inbox + [id])
  }

  function Activate(s: Cpu, id: TaskId): (Cpu, bool) {
    if id !in s.tasks || Ready(s.tasks[id]) then (s, false)
    else
      var t := s.tasks[id];
      var s1 := Transition(SetTask(s, id, t.(reason := Async)), id, t.state.(sched := ReadyAs(t.reason)));
      var s2 := if t.started then SetTask(s1, id, s1.tasks[id].(migrationReady := true)) else s1;
      (Enqueue(s2, id, t.reason), true)
  }

  function PopWakeup(s: Cpu): (Cpu, bool)
    requires s.inbox != []
  {
    var id := s.inbox[0];
    var s1 := s.(inbox := s.inbox[1..]);
    var s2 := if id in s1.tasks then SetTask(s1, id, s1.tasks[id].(wakeQueued := false)) else s1;
    Activate(s2, id)
  }

  function Drain(s: Cpu): (Cpu, nat)
    decreases |s.inbox|
  {
    if s.inbox == [] then (s, 0)
    else
      var (s1, woke) := PopWakeup(s);
      var (s2, n) := Drain(s1);
      (s2, if woke then n + 1 else n)
  }

  // ---- selection

  function Promote(s: Cpu): Cpu
    decreases |s.ineligible|
  {
    if s.ineligible == [] || Key(s.tasks, ByEligible, s.ineligible[0]) > s.vtime then s
    else Promote(s.(ineligible := s.ineligible[1..],
                    eligible := Insert(s.tasks, ByDeadline, s.eligible, s.ineligible[0])))
  }

  /** Promotion, with the jump of the clock to the first eligibility boundary when nothing is eligible. */
  function PromoteOrJump(s: Cpu): Cpu {
    var s1 := Promote(s);
    if s1.eligible != [] || s1.ineligible == [] then s1
    else
      var first := s1.ineligible[0];
      var e: Virtual := if first in s1.tasks then s1.tasks[first].meta.veligible else 0;
      Promote(if e > s1.vtime then s1.(vtime := e) else s1)
  }

  function PickNext(s: Cpu): (Cpu, Option<TaskId>) {
    var s1 := PromoteOrJump(s);
    if s1.eligible == [] then (s1, None)
    else
      var id := s1.eligible[0];
      var s2 := s1.(eligible := s1.eligible[1..]);
      if id !in s2.tasks then (s2, None) else (s2.(current := Some(id)), Some(id))
  }

  function TakeNext(s: Cpu, now: Nanos): (Cpu, Option<TaskId>) {
    var (s1, picked) := PickNext(s);
    if picked == None || picked.value !in s1.tasks then (s1, None)
    else
      var t := s1.tasks[picked.value];
      (SetTask(s1, picked.value, t.(meta := t.meta.(execStart := Some(now), execRuntime := 0))), picked)
  }

  // ---- leaving the CPU

  function StopClock(t: Task): Task {
    t.(meta := t.meta.(execStart := None, execRuntime := 0))
  }

  function RequeueCurrent(s: Cpu, reason: ReadyReason): (Cpu, Option<TaskId>) {
    if s.current == None then (s, None)
    else
      var id := s.current.value;
      var s1 := s.(current := None);
      if id !in s1.tasks then (s1, None)
      else if s1.tasks[id].state.terminal != None then (s1, Some(id))
      else
        var s2 := SetTask(s1, id, StopClock(s1.tasks[id]));
        var s3 := Transition(s2, id, s2.tasks[id].state.(sched := ReadyAs(reason)));
        (Enqueue(s3, id, reason), Some(id))
  }

  /** `block_current` and `exit_current_with`: the latter also records the terminal reason. */
  function LeaveCurrent(s: Cpu, exit: Option<TaskExit>): (Cpu, Option<TaskId>) {
    if s.current == None then (s, None)
    else
      var id := s.current.value;
      var s1 := s.(current := None);
      if id !in s1.tasks then (s1, None)
      else
        var s2 := SetTask(s1, id, StopClock(s1.tasks[id]));
        var state := s2.tasks[id].state;
        (Transition(s2, id, TaskState(Blocked, if exit == None then state.terminal else exit)), Some(id))
  }

  function AccountCurrent(s: Cpu, runtime: Nanos, now: Nanos): Cpu {
    if s.current == None || s.current.value !in s.tasks then s
    else
      var id := s.current.value;
      var t := s.tasks[id];
      var vtime := SatAdd(s.vtime, RuntimeToVirtual(AtLeastOne(s.totalWeight), runtime), MAX_U128);
      var meta := t.meta.(
        vruntime := SatAdd(t.meta.vruntime, RuntimeToVirtual(Load(t), runtime), MAX_U128),
        execRuntime := SatAdd(t.meta.execRuntime, runtime, MAX_DURATION),
        execStart := Some(now));
      SetTask(s.(vtime := vtime), id, t.(meta := Refreshed(vtime, meta)))
  }

  /** Runtime since the stamp of `id`, charged to the current task; the Boolean says whether any was. */
  function AccountSince(s: Cpu, id: TaskId, now: Option<Nanos>): (Cpu, bool) {
    if now == None || id !in s.tasks || s.tasks[id].meta.execStart == None then (s, false)
    else
      var start := s.tasks[id].meta.execStart.value;
      if now.value <= start then (s, false)
      else (AccountCurrent(s, now.value - start, now.value), true)
  }

  function ShouldPreempt(s: Cpu): (Cpu, bool) {
    if s.current == None || s.current.value !in s.tasks then (s, false)
    else
      var s1 := Promote(s);
      if s1.eligible == [] then (s1, false)
      else
        var m := s.tasks[s.current.value].meta;
        var contender := s1.eligible[0];
        (s1, Key(s1.tasks, ByDeadline, contender) < m.vdeadline
             || (m.execRuntime >= m.slice && contender != s.current.value))
  }

  function OnTick(s: Cpu, now: Nanos): (Cpu, bool) {
    var (s1, drained) := Drain(s);
    var (s2, accounted) := if s1.current == None then (s1, false) else AccountSince(s1, s1.current.value, Some(now));
    if s2.current == None && drained > 0 then (s2, true)
    else if accounted || drained > 0 then ShouldPreempt(s2)
    else (s2, false)
  }

  function RecordStop(s: Cpu, id: TaskId, now: Option<Nanos>): Cpu {
    if now == None || id !in s.tasks then s
    else SetTask(s, id, s.tasks[id].(lastCpu := s.cpuId, lastStop := Min(now.value, MAX_U64)))
  }

  datatype Finalized = Finalized(reaped: Option<Task>, migrationReady: Option<TaskId>)

  /** `finalize_current_boundary`; `onStack` says whether the trap came from the current task's stack. */
  function Boundary(s: Cpu, onStack: bool, action: BoundaryAction, now: Option<Nanos>): (Cpu, Option<Finalized>) {
    if s.current == None || s.current.value !in s.tasks || !onStack then (s, None)
    else
      var id := s.current.value;
      var s1 := RecordStop(AccountSince(s, id, now).0, id, now);
      match action
      case CancelBoundary =>
        var (s2, reaped) := RemoveTask(LeaveCurrent(s1, Some(Cancelled)).0, id);
        (s2, Some(Finalized(reaped, None)))
      case Outcome(Exited(exit)) =>
        var (s2, reaped) := RemoveTask(LeaveCurrent(s1, Some(exit)).0, id);
        (s2, Some(Finalized(reaped, None)))
      case Outcome(Parked) =>
        (LeaveCurrent(s1, None).0, Some(Finalized(None, None)))
      case Outcome(Yielded) =>
        if s1.current == None || s1.current.value !in s1.tasks then (s1, Some(Finalized(None, None)))
        else
          var t := s1.tasks[s1.current.value];
          var (s2, requeued) := RequeueCurrent(SetTask(s1, s1.current.value, t.(reason := Async)), t.reason);
          (s2, Some(Finalized(None, if requeued != None then Some(id) else None)))
  }

  function SavePreempted(s: Cpu, onStack: bool, now: Option<Nanos>): (Cpu, Option<TaskId>) {
    if s.current == None || s.current.value !in s.tasks || !onStack then (s, None)
    else
      var id := s.current.value;
      var s1 := RecordStop(AccountSince(s, id, now).0, id, now);
      if id !in s1.tasks then (s1, None)
      else
        var (s2, requeued) := RequeueCurrent(SetTask(s1, id, s1.tasks[id].(reason := Preempt)), Preempt);
        (s2, if requeued == Some(id) then Some(id) else None)
  }

  // ---- migration

  predicate CacheHot(t: Task, cpuId: nat, now: Nanos, threshold: Nanos) {
    t.lastCpu == cpuId && SatSub(Min(now, MAX_U64), t.lastStop) < Min(threshold, MAX_U64)
  }

  predicate Migratable(s: Cpu, id: TaskId, now: Nanos, threshold: Nanos, ignoreHot: bool) {
    id in s.tasks
    && s.tasks[id].migrationReady
    && s.tasks[id].migrationAllowed
    && (ignoreHot || !CacheHot(s.tasks[id], s.cpuId, now, threshold))
  }

  function FirstMigratable(s: Cpu, tree: seq<TaskId>, now: Nanos, threshold: Nanos, ignoreHot: bool): Option<TaskId> {
    if tree == [] then None
    else if Migratable(s, tree[0], now, threshold, ignoreHot) then Some(tree[0])
    else FirstMigratable(s, tree[1..], now, threshold, ignoreHot)
  }

  /** Cold tasks first, eligible tree first; cache-hot tasks only when `relax` is set. */
  function ChooseMigratable(s: Cpu, now: Nanos, threshold: Nanos, relax: bool): Option<TaskId> {
    var a := FirstMigratable(s, s.eligible, now, threshold, false);
    if a != None then a
    else
      var b := FirstMigratable(s, s.ineligible, now, threshold, false);
      if b != None || !relax then b
      else
        var c := FirstMigratable(s, s.eligible, now, threshold, true);
        if c != None then c else FirstMigratable(s, s.ineligible, now, threshold, true)
  }

  function WithoutQueued(s: Cpu, id: TaskId): Cpu {
    if id in s.eligible then s.(eligible := Without(s.eligible, id))
    else s.(ineligible := Without(s.ineligible, id))
  }

  function TakeMigratable(s: Cpu, now: Nanos, threshold: Nanos, relax: bool): (Cpu, Option<(TaskId, Task)>) {
    var choice := ChooseMigratable(s, now, threshold, relax);
    if choice == None || choice.value !in s.tasks then (s, None)
    else
      var id := choice.value;
      var t := s.tasks[id];
      (Depart(WithoutQueued(s, id).(tasks := s.tasks - {id}), t), Some((id, StopClock(t))))
  }
}
