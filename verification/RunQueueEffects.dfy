/** What each run-queue operation does to the tasks: to the one it is about, and to no other. */
module RunQueueEffects {
  import opened Prelude
  import opened Eevdf
  import opened RunQueue
  import opened RunQueueInvariant

  /** Every task but `id` is as it was. */
  predicate OnlyTask(s: Cpu, r: Cpu, id: TaskId) {
    r.tasks - {id} == s.tasks - {id}
  }

  lemma SetOnly(tasks: map<TaskId, Task>, id: TaskId, t: Task)
    ensures tasks[id := t] - {id} == tasks - {id}
  {
  }

  lemma {:induction false} InsertHolds(tasks: map<TaskId, Task>, order: Order, tree: seq<TaskId>, id: TaskId)
    ensures forall x :: x in Insert(tasks, order, tree, id) <==> x == id || x in tree
    decreases |tree|
  {
    if tree != [] && !Before(tasks, order, id, tree[0]) { InsertHolds(tasks, order, tree[1..], id); }
  }

  /** The metadata of a task that is dated by this CPU's clock now. */
  function Dated(s: Cpu, m: Meta): Meta {
    var e: Virtual := if m.vruntime >= s.vtime then m.vruntime else s.vtime;
    m.(cpuId := s.cpuId, veligible := e, vdeadline := DeadlineFromEligible(AtLeastOne(m.weight), m.slice, e))
  }

  /** A task as it is when it has just been queued. */
  function Placed(s: Cpu, t: Task, reason: ReadyReason): Task {
    t.(state := t.state.(sched := if reason == Preempt then PreemptReady else AsyncReady), reason := Async,
       meta := Dated(s, t.meta))
  }

  /** The clock, the CPU, the current task and the inbox are the same. */
  predicate SameFrame(s: Cpu, r: Cpu) {
    r.cpuId == s.cpuId && r.vtime == s.vtime && r.current == s.current && r.inbox == s.inbox
  }

  /** Queueing a task dates it, makes it ready for the given reason and puts it in a tree; its weight counts once. */
  lemma EnqueueDoes(s: Cpu, id: TaskId, reason: ReadyReason)
    requires id in s.tasks
    ensures var r := Enqueue(s, id, reason);
            && r.tasks == s.tasks[id := Placed(s, s.tasks[id], reason)] && OnlyTask(s, r, id) && SameFrame(s, r)
            && r.totalWeight == (if Ready(s.tasks[id]) then s.totalWeight
                                 else SatAdd(s.totalWeight, Load(s.tasks[id]), MAX_U64))
            && (forall x :: Queued(r, x) <==> x == id || Queued(s, x))
  {
    var p := Prepare(s, id, reason);
    SetOnly(s.tasks, id, p.tasks[id]);
    assert p.tasks == s.tasks[id := p.tasks[id]];
    assert p.tasks[id] == Placed(s, s.tasks[id], reason);
    InsertHolds(p.tasks, ByDeadline, p.eligible, id);
    InsertHolds(p.tasks, ByEligible, p.ineligible, id);
    hide Insert;
  }

  // ---- Wakeups

  /** Draining the inbox will wake this task. */
  predicate ToWake(s: Cpu, x: TaskId) {
    x in s.tasks && x in s.inbox && !Ready(s.tasks[x])
  }

  ghost function Sleepers(s: Cpu): set<TaskId> {
    set x | x in s.tasks && ToWake(s, x)
  }

  /** A woken task: queued for the reason it had recorded, and ready to migrate if it has run before. */
  function Woken(s: Cpu, t: Task): Task {
    Placed(s, t.(wakeQueued := false, migrationReady := t.migrationReady || t.started), t.reason)
  }

  /** What an entry in the inbox makes of its task. */
  function Popped(s: Cpu, t: Task): Task {
    if Ready(t) then t.(wakeQueued := false) else Woken(s, t)
  }

  /** One popped entry, seen from any task. */
  lemma PopDoes(s: Cpu, x: TaskId)
    requires s.inbox != []
    ensures var (r, woke) := PopWakeup(s);
            var id := s.inbox[0];
            && r.cpuId == s.cpuId && r.vtime == s.vtime && r.current == s.current && r.inbox == s.inbox[1..]
            && (woke <==> ToWake(s, id))
            && r.tasks == (if id in s.tasks then s.tasks[id := Popped(s, s.tasks[id])] else s.tasks)
            && (Queued(r, x) <==> Queued(s, x) || (woke && x == id))
  {
    hide Enqueue, Transition;
    var id := s.inbox[0];
    if id in s.tasks {
      var t := s.tasks[id].(wakeQueued := false);
      assert s.tasks[id := t][id := t.(reason := Async)] == s.tasks[id := t.(reason := Async)];
      if !Ready(t) {
        var s0 := SetTask(s.(inbox := s.inbox[1..]), id, t.(reason := Async));
        WakeState(s0, id, t, x);
        assert s0.tasks[id := Woken(s, s.tasks[id])] == s.tasks[id := Woken(s, s.tasks[id])];
      }
    }
  }

  lemma WakeState(s0: Cpu, id: TaskId, t: Task, x: TaskId)
    requires id in s0.tasks && s0.tasks[id] == t.(reason := Async) && !Ready(t)
    ensures var s1 := Transition(s0, id, t.state.(sched := ReadyAs(t.reason)));
            var s2 := if t.started then SetTask(s1, id, s1.tasks[id].(migrationReady := true)) else s1;
            var r := Enqueue(s2, id, t.reason);
            && SameFrame(s0, r)
            && r.tasks == s0.tasks[id := Placed(s0, t.(migrationReady := t.migrationReady || t.started), t.reason)]
            && (Queued(r, x) <==> x == id || Queued(s0, x))
  {
    hide Enqueue;
    var s1 := Transition(s0, id, t.state.(sched := ReadyAs(t.reason)));
    var s2 := if t.started then SetTask(s1, id, s1.tasks[id].(migrationReady := true)) else s1;
    EnqueueDoes(s2, id, t.reason);
    assert s2.tasks == s0.tasks[id := s2.tasks[id]];
    var placed := Placed(s0, t.(migrationReady := t.migrationReady || t.started), t.reason);
    assert Placed(s2, s2.tasks[id], t.reason) == placed;
    assert s0.tasks[id := s2.tasks[id]][id := placed] == s0.tasks[id := placed];
  }

  /**
   Draining wakes and queues exactly the sleeping tasks in the inbox, each for the reason it had recorded; it clears
   the mark of every task there, and leaves every other task as it was.
   */
  lemma {:induction false} DrainWakes(s: Cpu, x: TaskId)
    ensures var r := Drain(s).0;
            && r.cpuId == s.cpuId && r.vtime == s.vtime && r.current == s.current && (x in r.tasks <==> x in s.tasks)
            && (x in s.tasks && x in s.inbox ==> r.tasks[x] == Popped(s, s.tasks[x]))
            && (x in s.tasks && x !in s.inbox ==> r.tasks[x] == s.tasks[x])
            && (Queued(r, x) <==> Queued(s, x) || ToWake(s, x))
    decreases |s.inbox|
  {
    if s.inbox != [] {
      PopDoes(s, x);
      var (s1, woke) := PopWakeup(s);
      DrainWakes(s1, x);
      if x in s.tasks { PoppedTwice(s, s1, s.tasks[x]); }
      hide PopWakeup, Popped;
      assert x in s.inbox <==> x == s.inbox[0] || x in s.inbox[1..];
    }
  }

  lemma PoppedTwice(s: Cpu, r: Cpu, t: Task)
    requires r.cpuId == s.cpuId && r.vtime == s.vtime
    ensures Popped(r, t) == Popped(s, t) && Popped(r, Popped(s, t)) == Popped(s, t) && Ready(Popped(s, t))
  {
  }

  lemma SleepsOn(s: Cpu, x: TaskId)
    requires s.inbox != []
    ensures x in Sleepers(PopWakeup(s).0) <==> x in Sleepers(s) && x != s.inbox[0]
  {
    PopDoes(s, x);
    hide PopWakeup;
    assert x in s.inbox <==> x == s.inbox[0] || x in s.inbox[1..];
  }

  /** Its count is the number of tasks it woke. */
  lemma {:induction false} DrainCounts(s: Cpu)
    ensures Drain(s).1 == |Sleepers(s)|
    decreases |s.inbox|
  {
    if s.inbox == [] {
      assert Sleepers(s) == {};
    } else {
      DrainCounts(PopWakeup(s).0);
      OneFewer(s);
      hide PopWakeup, Sleepers;
    }
  }

  /** Popping an entry leaves one task fewer to wake, or none was popped. */
  lemma OneFewer(s: Cpu)
    requires s.inbox != []
    ensures |Sleepers(s)| == |Sleepers(PopWakeup(s).0)| + if PopWakeup(s).1 then 1 else 0
    ensures |PopWakeup(s).0.inbox| < |s.inbox|
  {
    var id := s.inbox[0];
    PopDoes(s, id);
    forall x ensures x in Sleepers(PopWakeup(s).0) <==> x in Sleepers(s) && x != id { SleepsOn(s, x); }
    hide PopWakeup;
    assert Sleepers(PopWakeup(s).0) == Sleepers(s) - {id};
  }

  /** A wakeup posted to the task's own CPU reaches it at the next drain, unless it is already marked elsewhere. */
  lemma WakeupReaches(s: Cpu, id: TaskId)
    requires id in s.tasks
    ensures var r := Drain(EnqueueWakeup(s, id)).0;
            && id in r.tasks
            && (Ready(r.tasks[id]) <==> Ready(s.tasks[id]) || !s.tasks[id].wakeQueued || id in s.inbox)
  {
    var s1 := EnqueueWakeup(s, id);
    DrainWakes(s1, id);
    PoppedTwice(s1, s1, s1.tasks[id]);
    hide Popped;
  }

  /** Posting a wakeup marks the task and queues it last; until the mark is cleared another one changes nothing. */
  lemma WakeupOnce(s: Cpu, id: TaskId)
    requires id in s.tasks
    ensures var r := EnqueueWakeup(s, id);
            && id in r.tasks && r.tasks[id] == s.tasks[id].(wakeQueued := true) && OnlyTask(s, r, id)
            && r.inbox == s.inbox + (if s.tasks[id].wakeQueued then [] else [id])
            && EnqueueWakeup(r, id) == r
  {
    var r := EnqueueWakeup(s, id);
    SetOnly(s.tasks, id, r.tasks[id]);
    assert s.inbox + [] == s.inbox;
  }

  // ---- Onto the CPU and off it

  /** Taking a task stamps it and makes it current; every other task is untouched. */
  lemma TakeNextDoes(s: Cpu, now: Nanos)
    requires Inv(s)
    ensures var (r, picked) := TakeNext(s, now);
            && (picked == None ==> r.tasks == s.tasks && r.current == s.current)
            && (picked.Some? ==>
                  && picked.value in s.tasks && picked.value in r.tasks && r.current == picked
                  && OnlyTask(s, r, picked.value)
                  && r.tasks[picked.value].state == s.tasks[picked.value].state
                  && r.tasks[picked.value].meta == s.tasks[picked.value].meta.(execStart := Some(now), execRuntime := 0))
  {
    PickNextDoes(s);
    hide PickNext, Inv;
  }

  lemma PickNextDoes(s: Cpu)
    ensures var (r, picked) := PickNext(s);
            && r.tasks == s.tasks && (picked == None ==> r.current == s.current)
            && (picked.Some? ==> picked.value in s.tasks && r.current == picked)
  {
    PromoteKeeps(s);
    hide PromoteOrJump;
  }

  /** The current task is put back, ready for the given reason, in a tree. */
  lemma RequeueDoes(s: Cpu, reason: ReadyReason)
    requires Inv(s) && s.current.Some?
    ensures var (r, requeued) := RequeueCurrent(s, reason);
            var id := s.current.value;
            && requeued == Some(id) && r.current == None && OnlyTask(s, r, id) && id in r.tasks && Queued(r, id)
            && r.tasks[id] == Placed(s, Stopped(s.tasks[id]), reason)
            && r.vtime == s.vtime && r.totalWeight == s.totalWeight && r.cpuId == s.cpuId
  {
    StepOff(s);
    hide Enqueue;
    var id := s.current.value;
    var s2 := SetTask(s.(current := None), id, StopClock(s.tasks[id]));
    EnqueueDoes(Transition(s2, id, s2.tasks[id].state.(sched := ReadyAs(reason))), id, reason);
  }

  /** A current task that has a terminal reason leaves the CPU and is named, but is not queued again. */
  lemma TerminalStaysOut(s: Cpu, id: TaskId, reason: ReadyReason)
    requires s.current == Some(id) && id in s.tasks && s.tasks[id].state.terminal.Some?
    ensures RequeueCurrent(s, reason) == (s.(current := None), Some(id))
  {
  }

  /** A task that is not on the CPU has no running clock. */
  function Stopped(t: Task): Task {
    t.(meta := t.meta.(execStart := None, execRuntime := 0))
  }

  /** The current task is blocked, with the terminal reason if it exits. */
  lemma LeaveDoes(s: Cpu, exit: Option<TaskExit>)
    requires Inv(s) && s.current.Some?
    ensures var (r, left) := LeaveCurrent(s, exit);
            var id := s.current.value;
            && left == Some(id) && r.current == None && r.cpuId == s.cpuId
            && OnlyTask(s, r, id) && id in r.tasks && !Queued(r, id)
            && r.tasks[id] == Stopped(s.tasks[id]).(state := TaskState(Blocked, exit))
            && (forall x :: Queued(r, x) <==> Queued(s, x))
  {
    hide DepartureVtime, Keyed, Weighed, Ordered;
    var id := s.current.value;
    assert !Queued(s, id) && TaskShape(s, id, {});
    hide Inv;
  }

  /** Time to charge: the task's clock runs and `now` is past its stamp. */
  predicate Charging(t: Task, now: Option<Nanos>) {
    now.Some? && t.meta.execStart.Some? && now.value > t.meta.execStart.value
  }

  /** The two tasks differ in their metadata only. */
  predicate OnlyMeta(t: Task, u: Task) {
    u == t.(meta := u.meta)
  }

  /**
   Charging moves the clock by the time scaled by the total weight, the task's virtual runtime by the time scaled by
   its own, adds the time to what the task has run since it was taken, stamps it, and dates it anew.
   */
  lemma AccountSinceDoes(s: Cpu, id: TaskId, now: Option<Nanos>)
    requires s.current == Some(id) && id in s.tasks
    ensures var (r, charged) := AccountSince(s, id, now);
            && id in r.tasks && r.current == s.current && r.cpuId == s.cpuId && OnlyTask(s, r, id)
            && (charged <==> Charging(s.tasks[id], now)) && (!charged ==> r == s)
            && OnlyMeta(s.tasks[id], r.tasks[id])
            && (charged ==>
                  var m, n := s.tasks[id].meta, r.tasks[id].meta;
                  var time := now.value - m.execStart.value;
                  && r.vtime == Min(s.vtime + time * 1024 / AtLeastOne(s.totalWeight), MAX_U128)
                  && n.vruntime == Min(m.vruntime + time * 1024 / AtLeastOne(m.weight), MAX_U128)
                  && n.execRuntime == Min(m.execRuntime + time, MAX_DURATION) && n.execStart == now
                  && n == Dated(r, n.(cpuId := s.cpuId)).(cpuId := m.cpuId) && n.weight == m.weight && n.slice == m.slice)
  {
    var r := AccountSince(s, id, now).0;
    if r != s {
      SetOnly(s.tasks, id, r.tasks[id]);
      var m := s.tasks[id].meta;
      ScaledTime(now.value - m.execStart.value, s.totalWeight);
      ScaledTime(now.value - m.execStart.value, m.weight);
      hide RuntimeToVirtual;
    }
  }

  lemma ScaledTime(time: Nanos, weight: Weight)
    ensures RuntimeToVirtual(AtLeastOne(weight), time) == time * 1024 / AtLeastOne(weight)
  {
  }

  /** Where and when a task left the CPU. */
  predicate LeftAt(t: Task, cpu: nat, now: Option<Nanos>) {
    now.Some? ==> t.lastCpu == cpu && t.lastStop == Min(now.value, MAX_U64)
  }

  lemma RecordStopDoes(s: Cpu, id: TaskId, now: Option<Nanos>)
    requires id in s.tasks
    ensures var r := RecordStop(s, id, now);
            && id in r.tasks && r.current == s.current && r.cpuId == s.cpuId && OnlyTask(s, r, id)
            && LeftAt(r.tasks[id], s.cpuId, now)
            && r.tasks[id] == s.tasks[id].(lastCpu := r.tasks[id].lastCpu, lastStop := r.tasks[id].lastStop)
  {
    var r := RecordStop(s, id, now);
    if r != s { SetOnly(s.tasks, id, r.tasks[id]); }
  }

  /** The two tasks differ in metadata and in where they last stopped only. */
  predicate SameFlags(t: Task, u: Task) {
    u == t.(meta := u.meta, lastCpu := u.lastCpu, lastStop := u.lastStop)
  }

  lemma AccountDoes(s: Cpu, now: Option<Nanos>)
    requires Inv(s) && s.current.Some?
    ensures var id := s.current.value;
            var r := RecordStop(AccountSince(s, id, now).0, id, now);
            && Inv(r) && id in s.tasks && id in r.tasks && r.current == s.current && r.cpuId == s.cpuId && OnlyTask(s, r, id)
            && SameFlags(s.tasks[id], r.tasks[id]) && LeftAt(r.tasks[id], s.cpuId, now)
  {
    var id := s.current.value;
    assert id in s.tasks;
    hide Inv, RecordStop, AccountSince, Dated;
    AccountSinceDoes(s, id, now);
    AccountSinceInv(s, id, now);
    var s1 := AccountSince(s, id, now).0;
    RecordStopDoes(s1, id, now);
    RecordStopInv(s1, id, now);
  }

  /** What a boundary does: an exited or cancelled task is reaped, a blocked one stays blocked, a yielding one is queued. */
  lemma BoundaryDoes(s: Cpu, action: BoundaryAction, now: Option<Nanos>)
    requires Inv(s) && s.current.Some?
    ensures var (r, done) := Boundary(s, true, action, now);
            var id := s.current.value;
            && id in s.tasks && r.current == None && r.cpuId == s.cpuId && OnlyTask(s, r, id) && done.Some?
            && var Finalized(reaped, ready) := done.value;
               match action
               case CancelBoundary => Reaped(r, id, reaped, Cancelled) && ready == None
               case Outcome(Exited(exit)) => Reaped(r, id, reaped, exit) && ready == None
               case Outcome(Parked) =>
                 && id in r.tasks && r.tasks[id].state == TaskState(Blocked, None) && !Queued(r, id)
                 && LeftAt(r.tasks[id], s.cpuId, now) && SamePlacement(s.tasks[id], r.tasks[id])
                 && done.value == Finalized(None, None)
               case Outcome(Yielded) =>
                 && id in r.tasks && Queued(r, id) && Resting(s, r.tasks[id], s.tasks[id].reason, now)
                 && SamePlacement(s.tasks[id], r.tasks[id]) && done.value == Finalized(None, Some(id))
  {
    hide RecordStop, AccountSince, Inv, LeaveCurrent, RemoveTask, RequeueCurrent;
    var id := s.current.value;
    AccountDoes(s, now);
    var s1 := RecordStop(AccountSince(s, id, now).0, id, now);
    match action
    case CancelBoundary => ReapDoes(s1, Cancelled);
    case Outcome(Exited(exit)) => ReapDoes(s1, exit);
    case Outcome(Parked) => LeaveDoes(s1, None);
    case Outcome(Yielded) => YieldDoes(s1);
  }

  /** A task put back in a tree: ready for the given reason, its clock stopped, and where it stopped on record. */
  predicate Resting(s: Cpu, t: Task, reason: ReadyReason, now: Option<Nanos>) {
    && t.state.sched == (if reason == Preempt then PreemptReady else AsyncReady) && t.reason == Async
    && t.meta.execStart == None && t.meta.execRuntime == 0 && LeftAt(t, s.cpuId, now)
  }

  /** The task is off the table and handed back with its terminal reason. */
  predicate Reaped(r: Cpu, id: TaskId, reaped: Option<Task>, exit: TaskExit) {
    id !in r.tasks && reaped.Some? && reaped.value.state == TaskState(Blocked, Some(exit)) && !reaped.value.wakeQueued
  }

  lemma ReapDoes(s: Cpu, exit: TaskExit)
    requires Inv(s) && s.current.Some?
    ensures var (r, reaped) := RemoveTask(LeaveCurrent(s, Some(exit)).0, s.current.value);
            && r.current == None && r.cpuId == s.cpuId && OnlyTask(s, r, s.current.value)
            && Reaped(r, s.current.value, reaped, exit)
  {
    LeaveDoes(s, Some(exit));
    hide LeaveCurrent;
  }

  lemma YieldDoes(s: Cpu)
    requires Inv(s) && s.current.Some? && s.current.value in s.tasks
    ensures var id := s.current.value;
            var t := s.tasks[id];
            var (r, requeued) := RequeueCurrent(SetTask(s, id, t.(reason := Async)), t.reason);
            && requeued == Some(id) && r.current == None && OnlyTask(s, r, id) && id in r.tasks && Queued(r, id)
            && r.tasks[id] == Placed(s, Stopped(t), t.reason) && r.cpuId == s.cpuId
  {
    MarkedRequeue(s, Async, s.tasks[s.current.value].reason);
  }

  lemma MarkedRequeue(s: Cpu, mark: ReadyReason, reason: ReadyReason)
    requires Inv(s) && s.current.Some? && s.current.value in s.tasks
    ensures var id := s.current.value;
            var t := s.tasks[id];
            var (r, requeued) := RequeueCurrent(SetTask(s, id, t.(reason := mark)), reason);
            && requeued == Some(id) && r.current == None && OnlyTask(s, r, id) && id in r.tasks && Queued(r, id)
            && r.tasks[id] == Placed(s, Stopped(t), reason) && r.cpuId == s.cpuId
  {
    var id := s.current.value;
    var s1 := SetTask(s, id, s.tasks[id].(reason := mark));
    FlagsShape(s, id, s.tasks[id].(reason := mark), {});
    RequeueDoes(s1, reason);
    StepOff(s1);
    hide Enqueue, Transition, Inv;
  }

  /** The marks of the two tasks are the same. */
  predicate SamePlacement(t: Task, u: Task) {
    && u.hasRunnable == t.hasRunnable && u.wakeQueued == t.wakeQueued && u.started == t.started
    && u.migrationReady == t.migrationReady && u.migrationAllowed == t.migrationAllowed
  }

  /** A preempted task is queued as preempted and named. */
  lemma SavePreemptedDoes(s: Cpu, now: Option<Nanos>)
    requires Inv(s) && s.current.Some?
    ensures var (r, saved) := SavePreempted(s, true, now);
            var id := s.current.value;
            && saved == Some(id) && r.current == None && OnlyTask(s, r, id)
            && id in s.tasks && id in r.tasks && Queued(r, id) && Resting(s, r.tasks[id], Preempt, now)
            && r.cpuId == s.cpuId && SamePlacement(s.tasks[id], r.tasks[id])
  {
    var id := s.current.value;
    AccountDoes(s, now);
    var s1 := RecordStop(AccountSince(s, id, now).0, id, now);
    hide RecordStop, AccountSince, Inv;
    MarkedRequeue(s1, Preempt, Preempt);
  }

  lemma UnknownFloats(s: Cpu, id: TaskId)
    requires Inv(s) && id !in s.tasks
    ensures !Queued(s, id)
  {
  }

  /** Admission adds one task, dated, and queued exactly when it is ready or has something to run. */
  lemma AdmitDoes(s: Cpu, id: TaskId, t: Task)
    requires Inv(s) && id !in s.tasks
    ensures var r := Admit(s, id, t);
            && id in r.tasks && OnlyTask(s, r, id) && SameFrame(s, r)
            && (Queued(r, id) <==> t.hasRunnable || Ready(t))
            && (if t.hasRunnable || Ready(t) then
                  && r.tasks[id] == Placed(s, t, if t.state.sched == PreemptReady then Preempt else Async)
                  && r.totalWeight == SatAdd(s.totalWeight, AtLeastOne(t.meta.weight), MAX_U64)
                else r.tasks[id] == t.(meta := Dated(s, t.meta)) && r.totalWeight == s.totalWeight)
  {
    hide Inv, Enqueue, DeadlineFromEligible;
    UnknownFloats(s, id);
    var t1 := t.(meta := Refreshed(s.vtime, t.meta.(cpuId := s.cpuId)));
    var s1 := SetTask(s, id, t1);
    SetOnly(s.tasks, id, t1);
    assert t1 == t.(meta := Dated(s, t.meta));
    if t.hasRunnable || Ready(t) {
      var s2 := if Ready(t) then AddWeight(s1, t1) else s1;
      EnqueueDoes(s2, id, if t.state.sched == PreemptReady then Preempt else Async);
    }
  }
}
