/**
 The invariant that `debug_verify` (kernel/src/sched/mod.rs) samples at run time, and the proof that every
 run-queue operation keeps it.
 */
module RunQueueInvariant {
  import opened Prelude
  import opened Eevdf
  import opened RunQueue

  ghost predicate Ordered(tasks: map<TaskId, Task>, order: Order, tree: seq<TaskId>) {
    forall i, j :: 0 <= i < j < |tree| ==> Before(tasks, order, tree[i], tree[j])
  }

  predicate Queued(s: Cpu, id: TaskId) {
    id in s.eligible || id in s.ineligible
  }

  /** Not eligible before its service so far, and due one slice after that. */
  predicate Keyed(m: Meta) {
    m.vruntime <= m.veligible <= m.vdeadline == DeadlineFromEligible(AtLeastOne(m.weight), m.slice, m.veligible)
  }

  /** What must hold of one task. Tasks in `float` are being moved between places by the running operation. */
  ghost predicate TaskShape(s: Cpu, id: TaskId, float: set<TaskId>)
    requires id in s.tasks
  {
    var t := s.tasks[id];
    && t.meta.cpuId == s.cpuId
    && Keyed(t.meta)
    && (t.meta.execStart.Some? <==> s.current == Some(id))
    && (id !in float ==>
          && t.state.terminal == None
          && (Ready(t) && s.current != Some(id) ==> Queued(s, id)))
  }

  /** A queued task is ready, is not running, and is in one tree only. */
  ghost predicate QueueShape(s: Cpu, float: set<TaskId>) {
    && Ordered(s.tasks, ByDeadline, s.eligible)
    && Ordered(s.tasks, ByEligible, s.ineligible)
    && (forall id | id in s.eligible :: id !in s.ineligible)
    && (forall id | Queued(s, id) :: id in s.tasks && Ready(s.tasks[id]) && id !in float && s.current != Some(id))
  }

  ghost predicate Shape(s: Cpu, float: set<TaskId>) {
    && QueueShape(s, float)
    && (s.current.Some? ==> s.current.value in s.tasks && Ready(s.tasks[s.current.value]) && s.current.value !in float)
    && (forall id | id in s.tasks :: TaskShape(s, id, float))
  }

  function Share(t: Task): int {
    if Ready(t) then Load(t) else 0
  }

  ghost function Shares(tasks: map<TaskId, Task>): map<TaskId, int> {
    map id | id in tasks :: Share(tasks[id])
  }

  /** The exact runnable load, in unbounded integers. */
  ghost function ReadyLoad(tasks: map<TaskId, Task>): int {
    Sum(Shares(tasks))
  }

  ghost predicate Fits(s: Cpu) {
    ReadyLoad(s.tasks) <= MAX_U64
  }

  ghost predicate Weighed(s: Cpu) {
    s.totalWeight == ReadyLoad(s.tasks)
  }

  ghost predicate Inv(s: Cpu) {
    Shape(s, {}) && Weighed(s)
  }

  // ---- load bookkeeping

  lemma LoadSet(tasks: map<TaskId, Task>, id: TaskId, t: Task)
    ensures ReadyLoad(tasks[id := t]) == ReadyLoad(tasks - {id}) + Share(t)
    ensures id in tasks ==> ReadyLoad(tasks) == ReadyLoad(tasks - {id}) + Share(tasks[id])
    ensures ReadyLoad(tasks - {id}) >= 0
  {
    SumUpdate(Shares(tasks), id, Share(t));
    assert Shares(tasks[id := t]) == Shares(tasks)[id := Share(t)];
    assert Shares(tasks - {id}) == Shares(tasks) - {id};
    if id in tasks { SumSplit(Shares(tasks), id); }
    SumBounds(Shares(tasks - {id}));
  }

  /** Nothing but readiness and weight matters to the load. */
  lemma LoadKept(tasks: map<TaskId, Task>, id: TaskId, t: Task)
    requires id in tasks && Share(t) == Share(tasks[id])
    ensures ReadyLoad(tasks[id := t]) == ReadyLoad(tasks)
  {
    LoadSet(tasks, id, t);
  }

  lemma TransitionLoad(s: Cpu, id: TaskId, state: TaskState)
    requires id in s.tasks && Weighed(s)
    requires Fits(Transition(s, id, state))
    ensures Weighed(Transition(s, id, state))
  {
    LoadSet(s.tasks, id, s.tasks[id].(state := state));
  }

  // ---- trees

  lemma {:induction false} InsertOrdered(tasks: map<TaskId, Task>, order: Order, tree: seq<TaskId>, id: TaskId)
    requires Ordered(tasks, order, tree) && id !in tree
    ensures Ordered(tasks, order, Insert(tasks, order, tree, id))
    ensures forall x :: x in Insert(tasks, order, tree, id) <==> x == id || x in tree
  {
    if tree != [] && !Before(tasks, order, id, tree[0]) {
      InsertOrdered(tasks, order, tree[1..], id);
      var rest := Insert(tasks, order, tree[1..], id);
      assert forall x :: x in tree <==> x == tree[0] || x in tree[1..];
      forall j | 0 <= j < |rest| ensures Before(tasks, order, tree[0], rest[j]) {
        assert rest[j] in rest;
      }
    }
  }

  lemma OrderedKept(before: map<TaskId, Task>, after: map<TaskId, Task>, order: Order, tree: seq<TaskId>)
    requires Ordered(before, order, tree)
    requires forall id | id in tree :: Key(before, order, id) == Key(after, order, id)
    ensures Ordered(after, order, tree)
  {
    forall i, j | 0 <= i < j < |tree| ensures Before(after, order, tree[i], tree[j]) {
      assert Before(before, order, tree[i], tree[j]);
    }
  }

  lemma {:induction false} WithoutOrdered(tasks: map<TaskId, Task>, order: Order, tree: seq<TaskId>, id: TaskId)
    requires Ordered(tasks, order, tree)
    ensures Ordered(tasks, order, Without(tree, id))
    ensures forall x :: x in Without(tree, id) <==> x in tree && x != id
  {
    if tree != [] {
      var tail := tree[1..];
      assert tree == [tree[0]] + tail;
      assert forall x :: x in tree <==> x == tree[0] || x in tail;
      forall j | 0 <= j < |tail| ensures Before(tasks, order, tree[0], tail[j]) {
        assert tail[j] == tree[j + 1];
      }
      if tree[0] == id {
        assert forall x | x in tail :: Before(tasks, order, id, x);
      } else {
        WithoutOrdered(tasks, order, tail, id);
        var rest := Without(tail, id);
        forall j | 0 <= j < |rest| ensures Before(tasks, order, tree[0], rest[j]) {
          assert rest[j] in rest;
        }
      }
    }
  }

  // ---- building blocks

  /** Rewriting a task that is in no tree disturbs no tree. */
  lemma SetTaskShape(s: Cpu, id: TaskId, t: Task, float: set<TaskId>)
    requires Shape(s, float) && !Queued(s, id)
    requires s.current == Some(id) ==> Ready(t)
    requires t.meta.cpuId == s.cpuId && Keyed(t.meta)
    requires t.meta.execStart.Some? <==> s.current == Some(id)
    requires id !in float ==> t.state.terminal == None && (Ready(t) ==> s.current == Some(id))
    ensures Shape(SetTask(s, id, t), float)
  {
    hide Keyed;
    var s1 := SetTask(s, id, t);
    OrderedKept(s.tasks, s1.tasks, ByDeadline, s.eligible);
    OrderedKept(s.tasks, s1.tasks, ByEligible, s.ineligible);
    forall x | x in s1.tasks ensures TaskShape(s1, x, float) {
      if x != id { assert TaskShape(s, x, float); }
    }
  }

  /** Flags that play no part in queueing may change at any time. */
  predicate SameSchedule(t: Task, u: Task) {
    t.state == u.state && t.meta == u.meta
  }

  lemma FlagsShape(s: Cpu, id: TaskId, t: Task, float: set<TaskId>)
    requires Shape(s, float) && id in s.tasks && SameSchedule(s.tasks[id], t)
    ensures Shape(SetTask(s, id, t), float)
    ensures ReadyLoad(SetTask(s, id, t).tasks) == ReadyLoad(s.tasks)
  {
    var s1 := SetTask(s, id, t);
    OrderedKept(s.tasks, s1.tasks, ByDeadline, s.eligible);
    OrderedKept(s.tasks, s1.tasks, ByEligible, s.ineligible);
    forall x | x in s1.tasks ensures TaskShape(s1, x, float) {
      assert TaskShape(s, x, float);
    }
    LoadKept(s.tasks, id, t);
  }

  /** Changing the clock, the total or the inbox moves no task. */
  lemma ClockShape(s: Cpu, s1: Cpu, float: set<TaskId>)
    requires Shape(s, float)
    requires s1 == s.(vtime := s1.vtime, totalWeight := s1.totalWeight, inbox := s1.inbox)
    ensures Shape(s1, float)
  {
    forall x | x in s1.tasks ensures TaskShape(s1, x, float) {
      assert TaskShape(s, x, float);
    }
  }

  lemma TransitionShape(s: Cpu, id: TaskId, state: TaskState)
    requires Shape(s, {id}) && id in s.tasks && s.current != Some(id)
    ensures Shape(Transition(s, id, state), {id})
  {
    assert TaskShape(s, id, {id});
    SetTaskShape(s, id, s.tasks[id].(state := state), {id});
    ClockShape(SetTask(s, id, s.tasks[id].(state := state)), Transition(s, id, state), {id});
  }

  /** `insert_runnable_pointer` settles a floating task in exactly one tree. */
  lemma EnqueueInv(s: Cpu, id: TaskId, reason: ReadyReason)
    requires Shape(s, {id}) && Weighed(s) && id in s.tasks && s.current != Some(id)
    requires s.tasks[id].state.terminal == None
    requires Fits(Enqueue(s, id, reason))
    ensures Inv(Enqueue(s, id, reason))
  {
    var t := s.tasks[id];
    assert TaskShape(s, id, {id});
    var t1 := t.(meta := Refreshed(s.vtime, t.meta.(cpuId := s.cpuId)));
    var s1 := SetTask(s, id, t1);
    SetTaskShape(s, id, t1, {id});
    LoadKept(s.tasks, id, t1);
    var s2 := Transition(s1, id, t1.state.(sched := ReadyAs(reason)));
    TransitionShape(s1, id, t1.state.(sched := ReadyAs(reason)));
    var s3 := SetTask(s2, id, s2.tasks[id].(reason := Async));
    FlagsShape(s2, id, s2.tasks[id].(reason := Async), {id});
    TransitionLoad(s1, id, t1.state.(sched := ReadyAs(reason)));
    Settle(s3, id);
  }

  lemma Settle(s: Cpu, id: TaskId)
    requires Shape(s, {id}) && id in s.tasks && s.current != Some(id)
    requires s.tasks[id].state.terminal == None && Ready(s.tasks[id])
    ensures Shape(s.(eligible := Insert(s.tasks, ByDeadline, s.eligible, id)), {})
    ensures Shape(s.(ineligible := Insert(s.tasks, ByEligible, s.ineligible, id)), {})
  {
    InsertOrdered(s.tasks, ByDeadline, s.eligible, id);
    InsertOrdered(s.tasks, ByEligible, s.ineligible, id);
    var a := s.(eligible := Insert(s.tasks, ByDeadline, s.eligible, id));
    var b := s.(ineligible := Insert(s.tasks, ByEligible, s.ineligible, id));
    forall x | x in s.tasks ensures TaskShape(a, x, {}) && TaskShape(b, x, {}) {
      assert TaskShape(s, x, {id});
    }
  }

  /** A blocked task may be picked up by an operation, and put down again if it stays blocked. */
  lemma BlockedFloats(s: Cpu, id: TaskId)
    requires id in s.tasks && !Ready(s.tasks[id]) && s.tasks[id].state.terminal == None
    ensures Shape(s, {}) <==> Shape(s, {id})
  {
    if Shape(s, {}) {
      assert TaskShape(s, id, {});
      forall x | x in s.tasks ensures TaskShape(s, x, {id}) { assert TaskShape(s, x, {}); }
    }
    if Shape(s, {id}) {
      forall x | x in s.tasks ensures TaskShape(s, x, {}) { assert TaskShape(s, x, {id}); }
    }
  }

  // ---- the operations

  /** What callers of `admit_task` hand over: a stopped, live task. */
  predicate Admissible(t: Task) {
    t.meta.execStart == None && t.state.terminal == None
  }

  lemma AdmitInv(s: Cpu, id: TaskId, t: Task)
    requires Inv(s) && Admissible(t) && Fits(Admit(s, id, t))
    ensures Inv(Admit(s, id, t))
  {
    if id !in s.tasks {
      var t1 := t.(meta := Refreshed(s.vtime, t.meta.(cpuId := s.cpuId)));
      var s1 := SetTask(s, id, t1);
      forall x | x in s.tasks ensures TaskShape(s, x, {id}) { assert TaskShape(s, x, {}); }
      SetTaskShape(s, id, t1, {id});
      LoadSet(s.tasks, id, t1);
      assert s.tasks - {id} == s.tasks;
      hide Shape, Keyed, Enqueue;
      if !t.hasRunnable && !Ready(t) {
        BlockedFloats(s1, id);
      } else {
        var s2 := if Ready(t) then AddWeight(s1, t1) else s1;
        var reason := if t.state.sched == PreemptReady then Preempt else Async;
        ClockShape(s1, s2, {id});
        EnqueueLoad(s2, id, reason);
        EnqueueInv(s2, id, reason);
      }
    }
  }

  lemma EnqueueLoad(s: Cpu, id: TaskId, reason: ReadyReason)
    requires id in s.tasks
    ensures ReadyLoad(Enqueue(s, id, reason).tasks) == ReadyLoad(s.tasks) - Share(s.tasks[id]) + Load(s.tasks[id])
  {
    LoadSet(s.tasks, id, Enqueue(s, id, reason).tasks[id]);
    assert Enqueue(s, id, reason).tasks == s.tasks[id := Enqueue(s, id, reason).tasks[id]];
  }

  /** Only blocked tasks are removed: after exit, or to roll back a spawn. */
  lemma RemoveTaskInv(s: Cpu, id: TaskId)
    requires Shape(s, {id}) && Weighed(s)
    requires id in s.tasks ==> !Ready(s.tasks[id]) && s.current != Some(id)
    ensures Inv(RemoveTask(s, id).0)
  {
    var s1 := RemoveTask(s, id).0;
    if id in s.tasks { LoadSet(s.tasks, id, s.tasks[id]); }
    OrderedKept(s.tasks, s1.tasks, ByDeadline, s.eligible);
    OrderedKept(s.tasks, s1.tasks, ByEligible, s.ineligible);
    forall x | x in s1.tasks ensures TaskShape(s1, x, {}) { assert TaskShape(s, x, {id}); }
  }

  lemma EnqueueWakeupInv(s: Cpu, id: TaskId)
    requires Inv(s)
    ensures Inv(EnqueueWakeup(s, id))
  {
    if id in s.tasks && !s.tasks[id].wakeQueued {
      FlagsShape(s, id, s.tasks[id].(wakeQueued := true), {});
      ClockShape(SetTask(s, id, s.tasks[id].(wakeQueued := true)), EnqueueWakeup(s, id), {});
    }
  }

  lemma ActivateInv(s: Cpu, id: TaskId)
    requires Inv(s) && Fits(Activate(s, id).0)
    ensures Inv(Activate(s, id).0)
    ensures ReadyLoad(s.tasks) <= ReadyLoad(Activate(s, id).0.tasks)
  {
    if id in s.tasks && !Ready(s.tasks[id]) {
      var t := s.tasks[id];
      BlockedFacts(s, id);
      hide Shape, Enqueue, Transition;
      var s0 := SetTask(s, id, t.(reason := Async));
      FlagsShape(s, id, t.(reason := Async), {});
      BlockedFloats(s0, id);
      var state := t.state.(sched := ReadyAs(t.reason));
      var s1 := Transition(s0, id, state);
      WakeTransition(s0, id, state);
      var s2 := if t.started then SetTask(s1, id, s1.tasks[id].(migrationReady := true)) else s1;
      if t.started { FlagsShape(s1, id, s1.tasks[id].(migrationReady := true), {id}); }
      ActivateTail(s2, id, t.reason);
    }
  }

  /** A blocked task becomes ready: its weight joins the total. */
  lemma WakeTransition(s: Cpu, id: TaskId, state: TaskState)
    requires Shape(s, {id}) && Weighed(s) && id in s.tasks && !Ready(s.tasks[id]) && s.current != Some(id)
    requires state.sched != Blocked && state.terminal == None && state == s.tasks[id].state.(sched := state.sched)
    ensures var r := Transition(s, id, state);
            && Shape(r, {id}) && id in r.tasks && Ready(r.tasks[id]) && r.current == s.current
            && r.tasks[id] == s.tasks[id].(state := state)
            && ReadyLoad(s.tasks) <= ReadyLoad(r.tasks)
            && (ReadyLoad(r.tasks) <= MAX_U64 ==> Weighed(r))
  {
    TransitionShape(s, id, state);
    LoadSet(s.tasks, id, s.tasks[id].(state := state));
    hide Shape;
  }

  lemma BlockedFacts(s: Cpu, id: TaskId)
    requires Shape(s, {}) && id in s.tasks && !Ready(s.tasks[id])
    ensures s.current != Some(id) && s.tasks[id].state.terminal == None
  {
    assert TaskShape(s, id, {});
  }

  lemma ActivateTail(s: Cpu, id: TaskId, reason: ReadyReason)
    requires Shape(s, {id}) && id in s.tasks && Ready(s.tasks[id]) && s.current != Some(id)
    requires s.tasks[id].state.terminal == None
    requires Fits(Enqueue(s, id, reason)) && (ReadyLoad(s.tasks) <= MAX_U64 ==> Weighed(s))
    ensures Inv(Enqueue(s, id, reason)) && ReadyLoad(Enqueue(s, id, reason).tasks) == ReadyLoad(s.tasks)
  {
    EnqueueLoad(s, id, reason);
    EnqueueInv(s, id, reason);
  }

  lemma PopWakeupInv(s: Cpu)
    requires Inv(s) && s.inbox != [] && Fits(PopWakeup(s).0)
    ensures Inv(PopWakeup(s).0)
  {
    var id := s.inbox[0];
    var s1 := s.(inbox := s.inbox[1..]);
    ClockShape(s, s1, {});
    if id in s1.tasks {
      FlagsShape(s1, id, s1.tasks[id].(wakeQueued := false), {});
      ActivateInv(SetTask(s1, id, s1.tasks[id].(wakeQueued := false)), id);
    }
  }

  lemma PopInbox(s: Cpu)
    requires s.inbox != []
    ensures PopWakeup(s).0.inbox == s.inbox[1..]
  {
  }

  lemma PopWakeupLoad(s: Cpu)
    requires s.inbox != []
    ensures ReadyLoad(s.tasks) <= ReadyLoad(PopWakeup(s).0.tasks)
  {
    var id := s.inbox[0];
    if id in s.tasks {
      var u := PopWakeup(s).0.tasks[id];
      assert PopWakeup(s).0.tasks == s.tasks[id := u];
      LoadSet(s.tasks, id, u);
    }
  }

  lemma {:induction false} DrainInv(s: Cpu)
    requires Inv(s) && Fits(Drain(s).0)
    ensures Inv(Drain(s).0) && Drain(s).0.inbox == []
    decreases |s.inbox|
  {
    if s.inbox != [] {
      PopInbox(s);
      hide PopWakeup;
      var s1 := PopWakeup(s).0;
      DrainLoad(s1);
      PopWakeupInv(s);
      DrainInv(s1);
    }
  }

  lemma {:induction false} DrainLoad(s: Cpu)
    ensures ReadyLoad(s.tasks) <= ReadyLoad(Drain(s).0.tasks)
    decreases |s.inbox|
  {
    if s.inbox != [] {
      PopInbox(s);
      PopWakeupLoad(s);
      hide PopWakeup;
      DrainLoad(PopWakeup(s).0);
    }
  }

  lemma {:induction false} PromoteInv(s: Cpu)
    requires Shape(s, {})
    ensures Shape(Promote(s), {}) && Promote(s).tasks == s.tasks
    decreases |s.ineligible|
  {
    if s.ineligible != [] && Key(s.tasks, ByEligible, s.ineligible[0]) <= s.vtime {
      PromoteOne(s);
      PromoteInv(s.(ineligible := s.ineligible[1..],
                    eligible := Insert(s.tasks, ByDeadline, s.eligible, s.ineligible[0])));
    }
  }

  lemma PromoteOne(s: Cpu)
    requires Shape(s, {}) && s.ineligible != []
    ensures Shape(s.(ineligible := s.ineligible[1..],
                     eligible := Insert(s.tasks, ByDeadline, s.eligible, s.ineligible[0])), {})
  {
    var id := s.ineligible[0];
    FrontLeaves(s.tasks, ByEligible, s.ineligible);
    InsertOrdered(s.tasks, ByDeadline, s.eligible, id);
    var s1 := s.(ineligible := s.ineligible[1..], eligible := Insert(s.tasks, ByDeadline, s.eligible, id));
    assert forall x :: Queued(s1, x) <==> Queued(s, x);
    forall x | x in s.tasks ensures TaskShape(s1, x, {}) { assert TaskShape(s, x, {}); }
  }

  lemma FrontLeaves(tasks: map<TaskId, Task>, order: Order, tree: seq<TaskId>)
    requires Ordered(tasks, order, tree) && tree != []
    ensures Ordered(tasks, order, tree[1..])
    ensures forall x :: x in tree[1..] <==> x in tree && x != tree[0]
    ensures forall x | x in tree[1..] :: Before(tasks, order, tree[0], x)
  {
    assert tree == [tree[0]] + tree[1..];
  }

  lemma PromoteOrJumpInv(s: Cpu)
    requires Shape(s, {})
    ensures Shape(PromoteOrJump(s), {}) && PromoteOrJump(s).tasks == s.tasks
  {
    var s1 := Promote(s);
    PromoteInv(s);
    if s1.eligible == [] && s1.ineligible != [] {
      var first := s1.ineligible[0];
      assert Queued(s1, first);
      var e := s1.tasks[first].meta.veligible;
      var s2 := if e > s1.vtime then s1.(vtime := e) else s1;
      ClockShape(s1, s2, {});
      PromoteInv(s2);
    }
  }

  /** `take_next` is only entered with the CPU vacant. */
  lemma TakeNextInv(s: Cpu, now: Nanos)
    requires Inv(s) && s.current == None
    ensures Inv(TakeNext(s, now).0)
  {
    var s1 := PromoteOrJump(s);
    PromoteOrJumpInv(s);
    PromoteKeeps(s);
    if s1.eligible != [] {
      var id := s1.eligible[0];
      assert Queued(s1, id);
      FrontLeaves(s1.tasks, ByDeadline, s1.eligible);
      var t := s1.tasks[id].(meta := s1.tasks[id].meta.(execStart := Some(now), execRuntime := 0));
      var s2 := TakeNext(s, now).0;
      assert s2 == s1.(eligible := s1.eligible[1..], current := Some(id), tasks := s1.tasks[id := t]);
      LoadKept(s1.tasks, id, t);
      OrderedKept(s1.tasks, s2.tasks, ByDeadline, s2.eligible);
      OrderedKept(s1.tasks, s2.tasks, ByEligible, s2.ineligible);
      forall x | x in s2.tasks ensures TaskShape(s2, x, {}) { assert TaskShape(s1, x, {}); }
    }
  }

  lemma {:induction false} PromoteFields(s: Cpu)
    ensures Promote(s) == s.(eligible := Promote(s).eligible, ineligible := Promote(s).ineligible)
    decreases |s.ineligible|
  {
    if s.ineligible != [] && Key(s.tasks, ByEligible, s.ineligible[0]) <= s.vtime {
      PromoteFields(s.(ineligible := s.ineligible[1..],
                       eligible := Insert(s.tasks, ByDeadline, s.eligible, s.ineligible[0])));
    }
  }

  /** Promotion moves only the trees and, forwards, the clock. */
  lemma PromoteKeeps(s: Cpu)
    ensures var r := PromoteOrJump(s);
            r == s.(eligible := r.eligible, ineligible := r.ineligible, vtime := r.vtime) && s.vtime <= r.vtime
  {
    PromoteFields(s);
    var s1 := Promote(s);
    if s1.eligible == [] && s1.ineligible != [] {
      var first := s1.ineligible[0];
      var e: Virtual := if first in s1.tasks then s1.tasks[first].meta.veligible else 0;
      PromoteFields(if e > s1.vtime then s1.(vtime := e) else s1);
    }
  }

  /** The current task steps off the CPU and floats. */
  lemma StepOff(s: Cpu)
    requires Inv(s) && s.current.Some?
    ensures var id := s.current.value;
            id in s.tasks && Ready(s.tasks[id]) && s.tasks[id].state.terminal == None
            && Shape(SetTask(s.(current := None), id, StopClock(s.tasks[id])), {id})
            && Weighed(SetTask(s.(current := None), id, StopClock(s.tasks[id])))
  {
    var id := s.current.value;
    assert TaskShape(s, id, {});
    var s1 := SetTask(s.(current := None), id, StopClock(s.tasks[id]));
    OrderedKept(s.tasks, s1.tasks, ByDeadline, s.eligible);
    OrderedKept(s.tasks, s1.tasks, ByEligible, s.ineligible);
    forall x | x in s1.tasks ensures TaskShape(s1, x, {id}) { assert TaskShape(s, x, {}); }
    LoadKept(s.tasks, id, StopClock(s.tasks[id]));
  }

  lemma RequeueInv(s: Cpu, reason: ReadyReason)
    requires Inv(s) && Fits(RequeueCurrent(s, reason).0)
    ensures Inv(RequeueCurrent(s, reason).0)
    ensures s.current.Some? ==> RequeueCurrent(s, reason).1 == s.current
  {
    if s.current.Some? {
      StepOff(s);
      var id := s.current.value;
      var s2 := SetTask(s.(current := None), id, StopClock(s.tasks[id]));
      var state := s2.tasks[id].state.(sched := ReadyAs(reason));
      TransitionShape(s2, id, state);
      LoadKept(s2.tasks, id, s2.tasks[id].(state := state));
      EnqueueInv(Transition(s2, id, state), id, reason);
    }
  }

  lemma LeaveShape(s: Cpu, exit: Option<TaskExit>)
    requires Inv(s) && s.current.Some?
    ensures var s1 := LeaveCurrent(s, exit).0;
            var id := s.current.value;
            && Shape(s1, {id}) && Weighed(s1) && id in s1.tasks && !Ready(s1.tasks[id]) && s1.current == None
            && (exit == None ==> Shape(s1, {}))
  {
    StepOff(s);
    var id := s.current.value;
    var s2 := SetTask(s.(current := None), id, StopClock(s.tasks[id]));
    var state := TaskState(Blocked, if exit == None then s2.tasks[id].state.terminal else exit);
    TransitionShape(s2, id, state);
    LoadSet(s2.tasks, id, s2.tasks[id].(state := state));
    LoadBound(s2);
    TransitionLoad(s2, id, state);
    if exit == None { BlockedFloats(Transition(s2, id, state), id); }
  }

  /** A recorded total is a `u64`, so an exact one fits. */
  lemma LoadBound(s: Cpu)
    requires Weighed(s)
    ensures Fits(s)
  {
  }

  lemma BlockInv(s: Cpu)
    requires Inv(s)
    ensures Inv(LeaveCurrent(s, None).0)
  {
    if s.current.Some? { LeaveShape(s, None); }
  }

  lemma ExitAndRemoveInv(s: Cpu, exit: TaskExit)
    requires Inv(s) && s.current.Some?
    ensures Inv(RemoveTask(LeaveCurrent(s, Some(exit)).0, s.current.value).0)
  {
    LeaveShape(s, Some(exit));
    RemoveTaskInv(LeaveCurrent(s, Some(exit)).0, s.current.value);
  }

  lemma AccountInv(s: Cpu, runtime: Nanos, now: Nanos)
    requires Inv(s)
    ensures Inv(AccountCurrent(s, runtime, now))
    ensures AccountCurrent(s, runtime, now).current == s.current
    ensures ReadyLoad(AccountCurrent(s, runtime, now).tasks) == ReadyLoad(s.tasks)
  {
    if s.current.Some? {
      var id := s.current.value;
      var s1 := AccountCurrent(s, runtime, now);
      assert TaskShape(s, id, {});
      ClockShape(s, s.(vtime := s1.vtime), {});
      SetTaskShape(s.(vtime := s1.vtime), id, s1.tasks[id], {});
      LoadKept(s.tasks, id, s1.tasks[id]);
    }
  }

  lemma AccountSinceInv(s: Cpu, id: TaskId, now: Option<Nanos>)
    requires Inv(s)
    ensures Inv(AccountSince(s, id, now).0)
    ensures AccountSince(s, id, now).0.current == s.current
    ensures ReadyLoad(AccountSince(s, id, now).0.tasks) == ReadyLoad(s.tasks)
  {
    hide AccountCurrent, Shape, Weighed;
    if now.Some? && id in s.tasks && s.tasks[id].meta.execStart.Some? && now.value > s.tasks[id].meta.execStart.value {
      AccountInv(s, now.value - s.tasks[id].meta.execStart.value, now.value);
    }
  }

  lemma RecordStopInv(s: Cpu, id: TaskId, now: Option<Nanos>)
    requires Inv(s)
    ensures Inv(RecordStop(s, id, now)) && ReadyLoad(RecordStop(s, id, now).tasks) == ReadyLoad(s.tasks)
    ensures RecordStop(s, id, now).current == s.current
  {
    if now.Some? && id in s.tasks {
      FlagsShape(s, id, RecordStop(s, id, now).tasks[id], {});
    }
  }

  lemma ShouldPreemptInv(s: Cpu)
    requires Inv(s)
    ensures Inv(ShouldPreempt(s).0)
  {
    PromoteInv(s);
    PromoteFields(s);
  }

  lemma OnTickInv(s: Cpu, now: Nanos)
    requires Inv(s) && Fits(OnTick(s, now).0)
    ensures Inv(OnTick(s, now).0)
  {
    var s1 := Drain(s).0;
    var s2 := if s1.current == None then s1 else AccountSince(s1, s1.current.value, Some(now)).0;
    PromoteFields(s2);
    assert OnTick(s, now).0.tasks == s2.tasks;
    AccountSinceTasks(s1, now);
    DrainInv(s);
    if s1.current.Some? { AccountSinceInv(s1, s1.current.value, Some(now)); }
    ShouldPreemptInv(s2);
  }

  lemma AccountSinceTasks(s: Cpu, now: Nanos)
    ensures s.current.Some? ==> ReadyLoad(AccountSince(s, s.current.value, Some(now)).0.tasks) == ReadyLoad(s.tasks)
  {
    if s.current.Some? && s.current.value in s.tasks {
      var id := s.current.value;
      LoadKept(s.tasks, id, AccountSince(s, id, Some(now)).0.tasks[id]);
      assert s.tasks == s.tasks[id := s.tasks[id]];
    }
  }

  /** Both trap-boundary operations: everything they do before the task leaves the CPU. */
  lemma TrapPrefixInv(s: Cpu, now: Option<Nanos>)
    requires Inv(s) && s.current.Some?
    ensures var s1 := RecordStop(AccountSince(s, s.current.value, now).0, s.current.value, now);
            Inv(s1) && s1.current == s.current && ReadyLoad(s1.tasks) == ReadyLoad(s.tasks)
  {
    AccountSinceInv(s, s.current.value, now);
    RecordStopInv(AccountSince(s, s.current.value, now).0, s.current.value, now);
  }

  lemma RequeueMarkedInv(s: Cpu, mark: ReadyReason, reason: ReadyReason)
    requires Inv(s) && s.current.Some? && s.current.value in s.tasks
    ensures var s1 := SetTask(s, s.current.value, s.tasks[s.current.value].(reason := mark));
            Inv(RequeueCurrent(s1, reason).0) && RequeueCurrent(s1, reason).1 == s.current
  {
    var id := s.current.value;
    var s1 := SetTask(s, id, s.tasks[id].(reason := mark));
    FlagsShape(s, id, s.tasks[id].(reason := mark), {});
    RequeueLoad(s1, reason);
    RequeueInv(s1, reason);
  }

  lemma RequeueLoad(s: Cpu, reason: ReadyReason)
    requires Inv(s) && s.current.Some?
    ensures ReadyLoad(RequeueCurrent(s, reason).0.tasks) == ReadyLoad(s.tasks)
  {
    StepOff(s);
    var id := s.current.value;
    var s2 := SetTask(s.(current := None), id, StopClock(s.tasks[id]));
    var state := s2.tasks[id].state.(sched := ReadyAs(reason));
    var s3 := Transition(s2, id, state);
    LoadKept(s2.tasks, id, s3.tasks[id]);
    EnqueueLoad(s3, id, reason);
  }

  lemma BoundaryInv(s: Cpu, onStack: bool, action: BoundaryAction, now: Option<Nanos>)
    requires Inv(s)
    ensures Inv(Boundary(s, onStack, action, now).0)
  {
    if s.current.Some? && s.current.value in s.tasks && onStack {
      TrapPrefixInv(s, now);
      var s1 := RecordStop(AccountSince(s, s.current.value, now).0, s.current.value, now);
      match action
      case CancelBoundary => ExitAndRemoveInv(s1, Cancelled);
      case Outcome(Exited(exit)) => ExitAndRemoveInv(s1, exit);
      case Outcome(Parked) => BlockInv(s1);
      case Outcome(Yielded) => RequeueMarkedInv(s1, Async, s1.tasks[s1.current.value].reason);
    }
  }

  lemma SavePreemptedInv(s: Cpu, onStack: bool, now: Option<Nanos>)
    requires Inv(s)
    ensures Inv(SavePreempted(s, onStack, now).0)
    ensures onStack && s.current.Some? ==> SavePreempted(s, onStack, now).1 == s.current
  {
    if s.current.Some? && onStack {
      TrapPrefixInv(s, now);
      RequeueMarkedInv(RecordStop(AccountSince(s, s.current.value, now).0, s.current.value, now), Preempt, Preempt);
    }
  }

  lemma {:induction false} FirstMigratableFound(s: Cpu, tree: seq<TaskId>, now: Nanos, threshold: Nanos, ignoreHot: bool)
    ensures var r := FirstMigratable(s, tree, now, threshold, ignoreHot);
            if r.Some? then r.value in tree && Migratable(s, r.value, now, threshold, ignoreHot)
            else forall id | id in tree :: !Migratable(s, id, now, threshold, ignoreHot)
  {
    if tree != [] {
      FirstMigratableFound(s, tree[1..], now, threshold, ignoreHot);
    }
  }

  /** A task is offered exactly when one qualifies under the policy, and it is a queued one. */
  lemma ChooseMigratableFound(s: Cpu, now: Nanos, threshold: Nanos, relax: bool)
    ensures var r := ChooseMigratable(s, now, threshold, relax);
            && (r.Some? ==> Queued(s, r.value) && Migratable(s, r.value, now, threshold, true))
            && (r.Some? <==> exists id :: Queued(s, id) && Migratable(s, id, now, threshold, relax))
            && ((exists id :: Queued(s, id) && Migratable(s, id, now, threshold, false)) ==>
                  r.Some? && Migratable(s, r.value, now, threshold, false))
  {
    FirstMigratableFound(s, s.eligible, now, threshold, false);
    FirstMigratableFound(s, s.ineligible, now, threshold, false);
    FirstMigratableFound(s, s.eligible, now, threshold, true);
    FirstMigratableFound(s, s.ineligible, now, threshold, true);
  }

  lemma TakeMigratableInv(s: Cpu, now: Nanos, threshold: Nanos, relax: bool)
    requires Inv(s)
    ensures Inv(TakeMigratable(s, now, threshold, relax).0)
  {
    hide Keyed, DepartureVtime, ChooseMigratable;
    ChooseMigratableFound(s, now, threshold, relax);
    var choice := ChooseMigratable(s, now, threshold, relax);
    if choice.Some? {
      var id := choice.value;
      assert Queued(s, id);
      TakenShape(s, id, TakeMigratable(s, now, threshold, relax).0);
      LoadSet(s.tasks, id, s.tasks[id]);
    }
  }

  /** A queued task taken off its tree and off the table. */
  lemma TakenShape(s: Cpu, id: TaskId, r: Cpu)
    requires Shape(s, {}) && Queued(s, id) && r.tasks == s.tasks - {id} && r.current == s.current && r.cpuId == s.cpuId
    requires r.eligible == WithoutQueued(s, id).eligible && r.ineligible == WithoutQueued(s, id).ineligible
    ensures Shape(r, {})
  {
    hide Keyed;
    WithoutOrdered(s.tasks, ByDeadline, s.eligible, id);
    WithoutOrdered(s.tasks, ByEligible, s.ineligible, id);
    hide Without;
    assert forall x :: Queued(r, x) <==> Queued(s, x) && x != id;
    OrderedKept(s.tasks, r.tasks, ByDeadline, r.eligible);
    OrderedKept(s.tasks, r.tasks, ByEligible, r.ineligible);
    forall x | x in r.tasks ensures TaskShape(r, x, {}) { assert TaskShape(s, x, {}); }
  }
}
