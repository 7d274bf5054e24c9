/**
 The scheduler as the kernel writes it: mutable task cells shared by reference, a mutable per-CPU `Scheduler`,
 loops in drain, promotion and the migration scan. Every method is proved equal to its run-queue function, so
 the invariant, selection, lag and run theorems are theorems about these methods.
 */
module SchedulerObjects {
  import opened Prelude
  import opened Eevdf
  import opened RunQueue

  /** One `Task`, reduced to the lock-protected fields and atomic flags the scheduler uses. */
  class TaskCell {
    const id: TaskId
    var state: TaskState
    var meta: Meta
    var reason: ReadyReason
    var hasRunnable: bool
    var wakeQueued: bool
    var started: bool
    var migrationReady: bool
    var migrationAllowed: bool
    var lastCpu: nat
    var lastStop: nat

    constructor (id: TaskId, t: Task)
      ensures this.id == id && Value() == t
    {
      this.id := id;
      state, meta, reason, hasRunnable := t.state, t.meta, t.reason, t.hasRunnable;
      wakeQueued, started, migrationReady := t.wakeQueued, t.started, t.migrationReady;
      migrationAllowed, lastCpu, lastStop := t.migrationAllowed, t.lastCpu, t.lastStop;
    }

    function Value(): Task
      reads this
    {
      Task(state, meta, reason, hasRunnable, wakeQueued, started, migrationReady, migrationAllowed, lastCpu, lastStop)
    }

    method Store(t: Task)
      modifies this
      ensures Value() == t
    {
      state, meta, reason, hasRunnable := t.state, t.meta, t.reason, t.hasRunnable;
      wakeQueued, started, migrationReady := t.wakeQueued, t.started, t.migrationReady;
      migrationAllowed, lastCpu, lastStop := t.migrationAllowed, t.lastCpu, t.lastStop;
    }

    method TakeReadyReason() returns (r: ReadyReason)
      modifies this
      ensures r == old(reason) && Value() == old(Value()).(reason := Async)
    {
      r := reason;
      reason := Async;
    }

    method ClearWakeQueued() returns (was: bool)
      modifies this
      ensures was == old(wakeQueued) && Value() == old(Value()).(wakeQueued := false)
    {
      was := wakeQueued;
      wakeQueued := false;
    }
  }

  lemma TransitionRecord(s: Cpu, id: TaskId, state: TaskState)
    requires id in s.tasks
    ensures var r := Transition(s, id, state);
            r == s.(tasks := s.tasks[id := s.tasks[id].(state := state)], vtime := r.vtime, totalWeight := r.totalWeight)
  {
  }

  function Ids(cells: seq<TaskCell>): (ids: seq<TaskId>)
    ensures |ids| == |cells|
  {
    seq(|cells|, i requires 0 <= i < |cells| => cells[i].id)
  }

  class Scheduler {
    const cpuId: nat
    var current: Option<TaskId>
    var vtime: Virtual
    var totalWeight: Weight
    var tasks: map<TaskId, TaskCell>
    var eligible: seq<TaskId>
    var ineligible: seq<TaskId>
    var inbox: seq<TaskCell>

    constructor (cpuId: nat)
      ensures Valid() && Value() == NewCpu(cpuId) && tasks == map[] && inbox == []
    {
      this.cpuId := cpuId;
      current, vtime, totalWeight := None, 0, 0;
      tasks, eligible, ineligible, inbox := map[], [], [], [];
    }

    ghost function Cells(): set<TaskCell>
      reads this`tasks
    {
      set id | id in tasks :: tasks[id]
    }

    /** The table is keyed by task id, and a queued wakeup of a listed id is for the listed task. */
    ghost predicate Valid()
      reads this`tasks, this`inbox
    {
      && (forall id | id in tasks :: tasks[id].id == id)
      && (forall c | c in inbox :: c.id in tasks ==> tasks[c.id] == c)
    }

    function Table(): map<TaskId, Task>
      reads this`tasks, Cells()
    {
      map id | id in tasks :: tasks[id].Value()
    }

    ghost function Value(): Cpu
      reads this, Cells()
    {
      Cpu(cpuId, current, vtime, totalWeight, Table(), eligible, ineligible, Ids(inbox))
    }

    /** The table and the inbox are the same lists of the same cells. */
    twostate predicate SameCells()
      reads this
    {
      tasks == old(tasks) && inbox == old(inbox)
    }

    /** Overwrite the record of one listed task. */
    method Put(id: TaskId, t: Task)
      requires Valid() && id in tasks
      modifies tasks[id]
      ensures Valid() && Value() == SetTask(old(Value()), id, t)
    {
      tasks[id].Store(t);
      assert Table() == old(Table())[id := t];
    }

    method AdjustVtimeForDeparture(t: Task)
      modifies this`vtime
      ensures vtime == DepartureVtime(old(Value()), t)
    {
      var weight := Load(t);
      var remaining := SatSub(totalWeight, weight);
      if remaining == 0 { return; }
      var correction := Correction(vtime, t.meta.veligible, weight, remaining);
      if vtime >= t.meta.veligible {
        vtime := SatAdd(vtime, correction, MAX_U128);
      } else {
        vtime := SatSub(vtime, correction);
      }
    }

    method TransitionTaskState(id: TaskId, state: TaskState)
      requires Valid() && id in tasks
      modifies this, tasks[id]
      ensures Valid() && SameCells() && Value() == Transition(old(Value()), id, state)
    {
      hide Depart, Load;
      ghost var s := Value();
      var t := tasks[id].Value();
      if !Ready(t) && state.sched != Blocked {
        totalWeight := SatAdd(totalWeight, Load(t), MAX_U64);
        assert Value() == AddWeight(s, t);
      } else if Ready(t) && state.sched == Blocked {
        DepartWith(t);
      }
      Put(id, t.(state := state));
    }

    method PrepareRunnable(id: TaskId, reason: ReadyReason)
      requires Valid() && id in tasks
      modifies this, tasks[id]
      ensures Valid() && SameCells() && Value() == Prepare(old(Value()), id, reason)
    {
      hide Transition, Refreshed;
      var t := tasks[id].Value();
      Put(id, t.(meta := Refreshed(vtime, t.meta.(cpuId := cpuId))));
      TransitionTaskState(id, t.state.(sched := ReadyAs(reason)));
      Put(id, tasks[id].Value().(reason := Async));
    }

    method LinkRunnable(id: TaskId)
      requires Valid() && id in tasks
      modifies this
      ensures Valid() && SameCells() && Value() == Link(old(Value()), id)
    {
      hide Insert;
      if tasks[id].meta.veligible <= vtime {
        eligible := Insert(Table(), ByDeadline, eligible, id);
      } else {
        ineligible := Insert(Table(), ByEligible, ineligible, id);
      }
    }

    method InsertRunnable(id: TaskId, reason: ReadyReason)
      requires Valid()
      modifies this, Cells()
      ensures Valid() && SameCells() && Value() == Enqueue(old(Value()), id, reason)
    {
      hide Prepare, Link;
      if id !in tasks { return; }
      PrepareRunnable(id, reason);
      LinkRunnable(id);
    }

    method AddToTable(cell: TaskCell, t: Task)
      requires Valid() && cell.id !in tasks && (forall c | c in inbox :: c.id == cell.id ==> c == cell)
      modifies this`tasks, cell
      ensures Valid() && tasks == old(tasks)[cell.id := cell] && Value() == SetTask(old(Value()), cell.id, t)
    {
      ghost var before := Table();
      cell.Store(t);
      assert Table() == before;
      tasks := tasks[cell.id := cell];
      assert Table() == before[cell.id := t];
    }

    method DropFromTable(id: TaskId)
      requires Valid()
      modifies this`tasks
      ensures Valid() && tasks == old(tasks) - {id} && Value() == old(Value()).(tasks := old(Value()).tasks - {id})
    {
      ghost var before := Table();
      tasks := tasks - {id};
      assert Table() == before - {id};
    }

    /** Clear the queued mark of a cell that may or may not be listed here. */
    method ClearMark(cell: TaskCell) returns (was: bool)
      requires Valid() && (cell.id in tasks ==> tasks[cell.id] == cell)
      modifies cell
      ensures Valid() && was == old(cell.wakeQueued) && cell.Value() == old(cell.Value()).(wakeQueued := false)
      ensures Value() == if cell.id in tasks then SetTask(old(Value()), cell.id, cell.Value()) else old(Value())
    {
      ghost var before := Table();
      was := cell.ClearWakeQueued();
      assert Table() == if cell.id in tasks then before[cell.id := cell.Value()] else before;
    }

    /** Ids are unique among live tasks, so a queued wakeup for this id is for this task. */
    method AdmitTask(cell: TaskCell)
      requires Valid() && (forall c | c in inbox :: c.id == cell.id ==> c == cell)
      modifies this, Cells(), cell
      ensures Valid() && Value() == Admit(old(Value()), cell.id, old(cell.Value()))
      ensures inbox == old(inbox) && tasks == if cell.id in old(tasks) then old(tasks) else old(tasks)[cell.id := cell]
    {
      hide Enqueue, Refreshed;
      var id := cell.id;
      if id in tasks { return; }
      ghost var s := Value();
      var t := cell.Value();
      var t1 := t.(meta := Refreshed(vtime, t.meta.(cpuId := cpuId)));
      AddToTable(cell, t1);
      assert Value() == SetTask(s, id, t1);
      if t.hasRunnable || Ready(t) {
        if Ready(t) {
          totalWeight := SatAdd(totalWeight, Load(t1), MAX_U64);
          assert Value() == AddWeight(SetTask(s, id, t1), t1);
        }
        InsertRunnable(id, if t.state.sched == PreemptReady then Preempt else Async);
      }
    }

    method RemoveTask(id: TaskId) returns (removed: Option<TaskCell>)
      requires Valid()
      modifies this, Cells()
      ensures Valid() && Value() == RunQueue.RemoveTask(old(Value()), id).0
      ensures tasks == old(tasks) - {id}
      ensures removed == if id in old(tasks) then Some(old(tasks)[id]) else None
      ensures removed.Some? ==> RunQueue.RemoveTask(old(Value()), id).1 == Some(removed.value.Value())
    {
      if id !in tasks {
        assert tasks - {id} == tasks;
        return None;
      }
      hide Load, Without;
      var cell := tasks[id];
      ghost var s := Value();
      DropFromTable(id);
      UnlinkWakeup(cell);
      ghost var s1 := Value();
      assert s1 == s.(tasks := s.tasks - {id}, inbox := if s.tasks[id].wakeQueued then Without(s.inbox, id) else s.inbox);
      assert cell.Value() == s.tasks[id].(wakeQueued := false);
      if Ready(cell.Value()) { TakeOffWeight(cell.Value()); }
      removed := Some(cell);
    }

    method TakeOffWeight(t: Task)
      requires Valid()
      modifies this`totalWeight
      ensures Valid() && Value() == SubWeight(old(Value()), t)
    {
      totalWeight := SatSub(totalWeight, Load(t));
    }

    /** Clear the queued mark of an unlisted task and take it off the inbox if it was set. */
    method UnlinkWakeup(cell: TaskCell)
      requires Valid() && cell.id !in tasks && (forall c | c in inbox :: c.id == cell.id ==> c == cell)
      modifies this`inbox, cell
      ensures Valid() && tasks == old(tasks) && cell.Value() == old(cell.Value()).(wakeQueued := false)
      ensures Value() == old(Value()).(inbox := if old(cell.wakeQueued) then Without(old(Value()).inbox, cell.id)
                                                else old(Value()).inbox)
    {
      DetachIds(inbox, cell);
      var queued := ClearMark(cell);
      if queued { inbox := Detach(inbox, cell); }
    }

    method EnqueueWakeup(id: TaskId)
      requires Valid()
      modifies this, Cells()
      ensures Valid() && tasks == old(tasks) && Value() == RunQueue.EnqueueWakeup(old(Value()), id)
    {
      if id !in tasks || tasks[id].wakeQueued { return; }
      Put(id, tasks[id].Value().(wakeQueued := true));
      IdsAppend(inbox, tasks[id]);
      inbox := inbox + [tasks[id]];
    }

    method ActivateWakeup(id: TaskId) returns (woke: bool)
      requires Valid()
      modifies this, Cells()
      ensures Valid() && SameCells() && (Value(), woke) == Activate(old(Value()), id)
    {
      hide Transition, Enqueue;
      if id !in tasks || Ready(tasks[id].Value()) { return false; }
      var t := tasks[id].Value();
      Put(id, t.(reason := Async));
      ghost var s0 := Value();
      TransitionTaskState(id, t.state.(sched := ReadyAs(t.reason)));
      TransitionRecord(s0, id, t.state.(sched := ReadyAs(t.reason)));
      if tasks[id].started {
        Put(id, tasks[id].Value().(migrationReady := true));
      }
      InsertRunnable(id, t.reason);
      woke := true;
    }

    /** Pop every queued wakeup. Cells of tasks that have migrated away only lose their queued mark. */
    method DrainWakeups() returns (drained: nat)
      requires Valid()
      modifies this, Cells(), inbox
      ensures Valid() && tasks == old(tasks) && inbox == []
      ensures (Value(), drained) == Drain(old(Value()))
    {
      hide PopWakeup;
      drained := 0;
      ghost var start := Value();
      while inbox != []
        invariant Valid() && tasks == old(tasks)
        invariant Cells() == old(Cells()) && (forall c | c in inbox :: c in old(inbox))
        invariant Drain(Value()).0 == Drain(start).0 && drained + Drain(Value()).1 == Drain(start).1
        decreases |inbox|
      {
        assert inbox[0] in inbox;
        var woke := PopOne();
        if woke { drained := drained + 1; }
      }
    }

    method PopOne() returns (woke: bool)
      requires Valid() && inbox != []
      modifies this, Cells(), inbox[0]
      ensures Valid() && tasks == old(tasks) && inbox == old(inbox)[1..]
      ensures (Value(), woke) == PopWakeup(old(Value()))
    {
      hide Activate;
      var cell := inbox[0];
      assert Ids(inbox)[1..] == Ids(inbox[1..]);
      inbox := inbox[1..];
      var _ := ClearMark(cell);
      woke := ActivateWakeup(cell.id);
    }

    method PromoteEligible()
      requires Valid()
      modifies this`eligible, this`ineligible
      ensures Valid() && Value() == Promote(old(Value()))
    {
      hide Insert;
      ghost var start := Value();
      while ineligible != [] && Key(Table(), ByEligible, ineligible[0]) <= vtime
        invariant Valid() && Promote(Value()) == Promote(start)
        decreases |ineligible|
      {
        ghost var s := Value();
        eligible, ineligible := Insert(Table(), ByDeadline, eligible, ineligible[0]), ineligible[1..];
        assert Table() == s.tasks;
        assert Value() == s.(ineligible := s.ineligible[1..], eligible := Insert(s.tasks, ByDeadline, s.eligible, s.ineligible[0]));
        assert Promote(s) == Promote(Value());
      }
    }

    method PickNext() returns (picked: Option<TaskId>)
      requires Valid()
      modifies this`eligible, this`ineligible, this`vtime, this`current
      ensures Valid() && (Value(), picked) == RunQueue.PickNext(old(Value()))
    {
      PromoteEligible();
      ghost var s1 := Value();
      assert s1 == Promote(old(Value()));
      if eligible == [] && ineligible != [] {
        var first := ineligible[0];
        var next: Virtual := if first in tasks then tasks[first].meta.veligible else 0;
        if next > vtime { vtime := next; }
        assert Value() == if next > s1.vtime then s1.(vtime := next) else s1;
        PromoteEligible();
      }
      assert Value() == PromoteOrJump(old(Value()));
      picked := PopEligible();
    }

    /** Take the front of the eligible tree and publish it as current. */
    method PopEligible() returns (picked: Option<TaskId>)
      requires Valid()
      modifies this`eligible, this`current
      ensures Valid()
      ensures var s := old(Value());
              var s2 := if s.eligible == [] then s else s.(eligible := s.eligible[1..]);
              if s.eligible == [] || s.eligible[0] !in s.tasks then Value() == s2 && picked == None
              else picked == Some(s.eligible[0]) && Value() == s2.(current := picked)
    {
      if eligible == [] { return None; }
      var id := eligible[0];
      eligible := eligible[1..];
      if id !in tasks { return None; }
      current := Some(id);
      picked := Some(id);
    }

    method TakeNext(now: Nanos) returns (picked: Option<TaskId>)
      requires Valid()
      modifies this, Cells()
      ensures Valid() && SameCells() && (Value(), picked) == RunQueue.TakeNext(old(Value()), now)
    {
      hide RunQueue.PickNext;
      picked := PickNext();
      if picked == None || picked.value !in tasks { return None; }
      var t := tasks[picked.value].Value();
      Put(picked.value, t.(meta := t.meta.(execStart := Some(now), execRuntime := 0)));
    }

    method RequeueCurrentWith(reason: ReadyReason) returns (requeued: Option<TaskId>)
      requires Valid()
      modifies this, Cells()
      ensures Valid() && SameCells() && (Value(), requeued) == RequeueCurrent(old(Value()), reason)
    {
      hide Transition, Enqueue;
      if current == None { return None; }
      var id := current.value;
      current := None;
      if id !in tasks { return None; }
      if tasks[id].state.terminal != None { return Some(id); }
      Put(id, StopClock(tasks[id].Value()));
      TransitionTaskState(id, tasks[id].state.(sched := ReadyAs(reason)));
      InsertRunnable(id, reason);
      requeued := Some(id);
    }

    /** `block_current` (no exit reason) and `exit_current_with`. */
    method LeaveCurrentWith(exit: Option<TaskExit>) returns (left: Option<TaskId>)
      requires Valid()
      modifies this, Cells()
      ensures Valid() && SameCells() && (Value(), left) == LeaveCurrent(old(Value()), exit)
    {
      hide Transition;
      if current == None { return None; }
      var id := current.value;
      current := None;
      if id !in tasks { return None; }
      Put(id, StopClock(tasks[id].Value()));
      TransitionTaskState(id, TaskState(Blocked, if exit == None then tasks[id].state.terminal else exit));
      left := Some(id);
    }

    method AccountCurrentRuntime(runtime: Nanos, now: Nanos)
      requires Valid()
      modifies this, Cells()
      ensures Valid() && SameCells() && Value() == AccountCurrent(old(Value()), runtime, now)
    {
      hide RuntimeToVirtual, Refreshed;
      if current == None || current.value !in tasks { return; }
      var id := current.value;
      var t := tasks[id].Value();
      var taskDelta := RuntimeToVirtual(Load(t), runtime);
      var schedDelta := RuntimeToVirtual(AtLeastOne(totalWeight), runtime);
      var meta := t.meta.(
        vruntime := SatAdd(t.meta.vruntime, taskDelta, MAX_U128),
        execRuntime := SatAdd(t.meta.execRuntime, runtime, MAX_DURATION),
        execStart := Some(now));
      vtime := SatAdd(vtime, schedDelta, MAX_U128);
      Put(id, t.(meta := Refreshed(vtime, meta)));
    }

    method AccountRuntimeSince(id: TaskId, now: Option<Nanos>) returns (accounted: bool)
      requires Valid()
      modifies this, Cells()
      ensures Valid() && SameCells() && (Value(), accounted) == AccountSince(old(Value()), id, now)
    {
      hide AccountCurrent;
      if now == None || id !in tasks || tasks[id].meta.execStart == None { return false; }
      var start := tasks[id].meta.execStart.value;
      if now.value <= start { return false; }
      AccountCurrentRuntime(now.value - start, now.value);
      accounted := true;
    }

    method ShouldPreemptCurrent() returns (preempt: bool)
      requires Valid()
      modifies this`eligible, this`ineligible
      ensures Valid() && (Value(), preempt) == ShouldPreempt(old(Value()))
    {
      hide Promote;
      if current == None || current.value !in tasks { return false; }
      PromoteEligible();
      if eligible == [] { return false; }
      var m := tasks[current.value].meta;
      var contender := eligible[0];
      preempt := Key(Table(), ByDeadline, contender) < m.vdeadline
                 || (m.execRuntime >= m.slice && contender != current.value);
    }

    method OnTick(now: Nanos) returns (preempt: bool)
      requires Valid()
      modifies this, Cells(), inbox
      ensures Valid() && tasks == old(tasks) && (Value(), preempt) == RunQueue.OnTick(old(Value()), now)
    {
      hide Drain, AccountSince, ShouldPreempt;
      var drained := DrainWakeups();
      var accounted := false;
      if current.Some? {
        accounted := AccountRuntimeSince(current.value, Some(now));
      }
      if current == None && drained > 0 { return true; }
      if accounted || drained > 0 {
        preempt := ShouldPreemptCurrent();
      } else {
        preempt := false;
      }
    }

    method RecordStop(id: TaskId, now: Option<Nanos>)
      requires Valid()
      modifies Cells()
      ensures Valid() && Value() == RunQueue.RecordStop(old(Value()), id, now)
    {
      if now == None || id !in tasks { return; }
      Put(id, tasks[id].Value().(lastCpu := cpuId, lastStop := Min(now.value, MAX_U64)));
    }

    method SavePreemptedCurrent(onStack: bool, now: Option<Nanos>) returns (saved: Option<TaskId>)
      requires Valid()
      modifies this, Cells()
      ensures Valid() && SameCells() && (Value(), saved) == SavePreempted(old(Value()), onStack, now)
    {
      hide AccountSince, RunQueue.RecordStop, RequeueCurrent;
      if current == None || current.value !in tasks || !onStack { return None; }
      var id := current.value;
      var _ := AccountRuntimeSince(id, now);
      RecordStop(id, now);
      Put(id, tasks[id].Value().(reason := Preempt));
      var requeued := RequeueCurrentWith(Preempt);
      saved := if requeued == Some(id) then Some(id) else None;
    }

    method FinalizeYield(id: TaskId) returns (ready: Option<TaskId>)
      requires Valid() && current.Some? && current.value in tasks
      modifies this, Cells()
      ensures Valid() && SameCells()
      ensures var s := old(Value());
              var t := s.tasks[s.current.value];
              var (r, requeued) := RequeueCurrent(SetTask(s, s.current.value, t.(reason := Async)), t.reason);
              Value() == r && ready == if requeued != None then Some(id) else None
    {
      hide RequeueCurrent;
      var c := current.value;
      ghost var before := Table();
      var reason := tasks[c].TakeReadyReason();
      assert Table() == before[c := before[c].(reason := Async)];
      var requeued := RequeueCurrentWith(reason);
      ready := if requeued != None then Some(id) else None;
    }

    /** `finalize_current_boundary`: a task that exited or was cancelled also leaves the table. */
    method FinalizeCurrentBoundary(onStack: bool, action: BoundaryAction, now: Option<Nanos>)
      returns (done: bool, reaped: Option<TaskCell>, ready: Option<TaskId>)
      requires Valid()
      modifies this, Cells()
      ensures Valid() && Value() == Boundary(old(Value()), onStack, action, now).0
      ensures var out := Boundary(old(Value()), onStack, action, now).1;
              && done == out.Some?
              && (done ==> out.value.migrationReady == ready)
              && (done ==> out.value.reaped == if reaped.Some? then Some(reaped.value.Value()) else None)
    {
      hide AccountSince, RunQueue.RecordStop, LeaveCurrent, RunQueue.RemoveTask, RequeueCurrent;
      done, reaped, ready := false, None, None;
      if current == None || current.value !in tasks || !onStack { return; }
      done := true;
      var id := current.value;
      var _ := AccountRuntimeSince(id, now);
      RecordStop(id, now);
      match action {
        case CancelBoundary =>
          var _ := LeaveCurrentWith(Some(Cancelled));
          reaped := RemoveTask(id);
        case Outcome(Exited(exit)) =>
          var _ := LeaveCurrentWith(Some(exit));
          reaped := RemoveTask(id);
        case Outcome(Parked) =>
          var _ := LeaveCurrentWith(None);
        case Outcome(Yielded) =>
          if current.Some? && current.value in tasks {
            ready := FinalizeYield(id);
          }
      }
    }

    /** Scan one tree, in tree order, for a task the policy lets go. */
    method FindMigratable(tree: seq<TaskId>, now: Nanos, threshold: Nanos, ignoreHot: bool)
      returns (found: Option<TaskId>)
      requires Valid()
      ensures found == FirstMigratable(Value(), tree, now, threshold, ignoreHot)
    {
      hide CacheHot;
      var i := 0;
      while i < |tree|
        invariant 0 <= i <= |tree|
        invariant FirstMigratable(Value(), tree, now, threshold, ignoreHot)
               == FirstMigratable(Value(), tree[i..], now, threshold, ignoreHot)
      {
        var id := tree[i];
        if id in tasks && tasks[id].migrationReady && tasks[id].migrationAllowed
           && (ignoreHot || !CacheHot(tasks[id].Value(), cpuId, now, threshold)) {
          return Some(id);
        }
        assert tree[i..][1..] == tree[i + 1..];
        i := i + 1;
      }
      found := None;
    }

    method ChooseMigratableTask(now: Nanos, threshold: Nanos, relax: bool) returns (choice: Option<TaskId>)
      requires Valid()
      ensures choice == ChooseMigratable(Value(), now, threshold, relax)
    {
      ghost var s := Value();
      choice := FindMigratable(eligible, now, threshold, false);
      assert Value() == s;
      assert choice == FirstMigratable(s, s.eligible, now, threshold, false);
      if choice != None { return; }
      choice := FindMigratable(ineligible, now, threshold, false);
      assert Value() == s;
      assert choice == FirstMigratable(s, s.ineligible, now, threshold, false);
      if choice != None || !relax { return; }
      choice := FindMigratable(eligible, now, threshold, true);
      assert Value() == s;
      assert choice == FirstMigratable(s, s.eligible, now, threshold, true);
      if choice != None { return; }
      choice := FindMigratable(ineligible, now, threshold, true);
      assert Value() == s;
      assert choice == FirstMigratable(s, s.ineligible, now, threshold, true);
    }

    /** The wake inbox is not searched: a queued wakeup of the migrated task stays behind. */
    method TakeMigratable(now: Nanos, threshold: Nanos, relax: bool) returns (taken: Option<TaskCell>)
      requires Valid()
      modifies this, Cells()
      ensures Valid() && inbox == old(inbox)
      ensures var (r, out) := RunQueue.TakeMigratable(old(Value()), now, threshold, relax);
              Value() == r && out == if taken.Some? then Some((taken.value.id, taken.value.Value())) else None
      ensures taken.Some? ==> taken.value.id in old(tasks) && taken.value == old(tasks)[taken.value.id]
      ensures tasks == if taken.Some? then old(tasks) - {taken.value.id} else old(tasks)
    {
      hide ChooseMigratable, Depart, Without;
      var choice := ChooseMigratableTask(now, threshold, relax);
      if choice == None || choice.value !in tasks { return None; }
      ghost var s := Value();
      var id := choice.value;
      var cell := tasks[id];
      if id in eligible {
        eligible := Without(eligible, id);
      } else {
        ineligible := Without(ineligible, id);
      }
      assert Value() == WithoutQueued(s, id);
      DropFromTable(id);
      assert Value() == WithoutQueued(s, id).(tasks := s.tasks - {id});
      DepartWith(cell.Value());
      StopUnlisted(cell);
      taken := Some(cell);
    }

    method DepartWith(t: Task)
      requires Valid()
      modifies this`vtime, this`totalWeight
      ensures Valid() && Value() == Depart(old(Value()), t)
    {
      hide DepartureVtime, Load;
      AdjustVtimeForDeparture(t);
      totalWeight := SatSub(totalWeight, Load(t));
    }

    method StopUnlisted(cell: TaskCell)
      requires Valid() && cell.id !in tasks
      modifies cell
      ensures Valid() && Value() == old(Value()) && cell.Value() == StopClock(old(cell.Value()))
    {
      ghost var before := Table();
      cell.Store(StopClock(cell.Value()));
      assert Table() == before;
    }
  }

  lemma IdsAppend(cells: seq<TaskCell>, cell: TaskCell)
    ensures Ids(cells + [cell]) == Ids(cells) + [cell.id]
  {
  }

  /** Unlink one cell from a wake list. */
  function Detach(cells: seq<TaskCell>, cell: TaskCell): seq<TaskCell> {
    if cells == [] then []
    else if cells[0] == cell then cells[1..]
    else [cells[0]] + Detach(cells[1..], cell)
  }

  lemma {:induction false} DetachIds(cells: seq<TaskCell>, cell: TaskCell)
    requires forall c | c in cells :: c.id == cell.id ==> c == cell
    ensures Ids(Detach(cells, cell)) == Without(Ids(cells), cell.id)
    ensures forall c | c in Detach(cells, cell) :: c in cells
  {
    if cells != [] {
      assert cells[0] in cells && Ids(cells)[1..] == Ids(cells[1..]);
      if cells[0] != cell {
        DetachIds(cells[1..], cell);
        assert Ids([cells[0]] + Detach(cells[1..], cell)) == [cells[0].id] + Ids(Detach(cells[1..], cell));
      }
    }
  }
}
