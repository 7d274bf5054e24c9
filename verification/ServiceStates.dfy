/**
 What the state of a task and of a call says of the past: what a task is for, who hears that a task could not be woken,
 and when the lifecycle state of a call (kernel/src/service/dispatcher.rs) can be trusted.
 */
module ServiceStates {
  import opened Prelude
  import opened ServiceProtocol
  import opened ServiceInvariant
  import opened ServiceRuns
  import opened ServiceLosses

  // ---- Tasks

  /**
   A task has a role exactly while it waits or serves; while it waits it holds no delivery, and the one it holds while it
   serves is the one that was delivered to it of the call it serves.
   */
  predicate OnDuty(st: TaskState, t: TaskId, history: map<CallId, seq<Event>>) {
    && (st.role.Some? <==> st.waiting || st.active.Some?)
    && (st.waiting ==> st.role == st.waitKind && st.delivery == None)
    && (st.active.Some? && st.delivery.Some? ==>
          Past(history, st.active.value) != []
          && Past(history, st.active.value)[0] == Delivered(t, st.delivery.value))
  }

  ghost predicate AllOnDuty(tasks: map<TaskId, TaskState>, history: map<CallId, seq<Event>>) {
    forall t | t in tasks :: OnDuty(tasks[t], t, history)
  }

  ghost predicate Duties(s: State) {
    AllOnDuty(s.tasks, s.history)
  }

  /** All but at most one task are as they were, and histories have only grown. */
  lemma OneTaskMoves(s: State, r: State, t: TaskId)
    requires Duties(s) && Grows(s.history, r.history)
    requires forall x | x in r.tasks && x != t :: x in s.tasks && r.tasks[x] == s.tasks[x]
    requires t in r.tasks ==> OnDuty(r.tasks[t], t, r.history)
    ensures Duties(r)
  {
    forall x | x in r.tasks && x != t ensures OnDuty(r.tasks[x], x, r.history) {
      var st := s.tasks[x];
      if st.active.Some? { assert Past(s.history, st.active.value) <= Past(r.history, st.active.value); }
    }
  }

  lemma SameTasks(s: State, r: State)
    requires Duties(s) && Grows(s.history, r.history) && r.tasks == s.tasks
    ensures Duties(r)
  {
    OneTaskMoves(s, r, 0);
  }

  lemma WaitDuty(s: State, t: TaskId, o: ObjectId)
    requires Duties(s) && t in s.tasks && o in s.objects && s.tasks[t].active == None && s.tasks[t].delivery == None
    ensures Duties(BeginWait(s, t, o))
  {
    OneTaskMoves(s, BeginWait(s, t, o), t);
  }

  lemma BeginDuty(s: State, t: TaskId, o: ObjectId)
    requires Duties(s) && Enabled(s, Begin(t, o))
    ensures Duties(BeginStep(s, t, o))
  {
    hide Duties, BeginWait;
    var st := s.tasks[t];
    if st.active == None && st.delivery == None { WaitDuty(s, t, o); }
  }

  lemma AbortDuty(s: State, t: TaskId, o: ObjectId)
    requires Inv(s) && Duties(s) && t in s.tasks && t in s.doing && s.doing[t] == Begun(o) && o in s.objects
    ensures Duties(AbortWait(s, t, s.objects[o].kind))
  {
    assert OnDuty(s.tasks[t], t, s.history) && TaskInv(s, t);
    OneTaskMoves(s, AbortWait(s, t, s.objects[o].kind), t);
  }

  lemma QueueDuty(s: State, t: TaskId, c: CallId, o: ObjectId)
    requires Duties(s) && o in s.objects
    ensures Duties(ParkTask(s, t, o)) && Duties(QueueCall(s, c, o))
    ensures s.objects[o].pending != [] ==> Duties(MatchCall(s, t, o))
    ensures s.objects[o].waiters != [] ==> Duties(MatchWaiter(s, c, o))
  {
    hide AllOnDuty;
  }

  lemma ParkDuty(s: State, t: TaskId)
    requires Inv(s) && Duties(s) && Enabled(s, Park(t))
    ensures Duties(ParkStep(s, t))
  {
    hide Inv, Duties, AbortWait, ParkTask, MatchCall;
    var o := s.doing[t].obj;
    AbortDuty(s, t, o);
    QueueDuty(s, t, 0, o);
  }

  lemma EnterDuty(s: State, c: CallId)
    requires Duties(s) && Enabled(s, Enter(c))
    ensures Duties(EnterStep(s, c))
  {
    hide Duties, QueueCall, MatchWaiter, Move;
    MoveDuty(s, c, Refused);
    QueueDuty(s, 0, c, s.place[c].obj);
  }

  lemma MoveDuty(s: State, c: CallId, p: Place)
    requires Duties(s)
    ensures Duties(Move(s, c, p)) && Duties(LetGo(s, c))
  {
  }

  lemma ArmDuty(s: State, c: CallId, t: TaskId, what: Delivery, told: bool)
    requires Inv(s) && Duties(s) && Accepts(s, t) && Past(s.history, c) == []
    requires Grows(s.history, Arm(s, c, t, what, told).history)
    ensures Duties(Arm(s, c, t, what, told))
  {
    var r := Arm(s, c, t, what, told);
    assert OnDuty(s.tasks[t], t, s.history);
    assert Past(r.history, c) == [Delivered(t, what)];
    OneTaskMoves(s, r, t);
  }

  lemma RejectDuty(s: State, c: CallId, o: ObjectId, told: bool)
    requires Duties(s)
    ensures Duties(Reject(s, c, o, told))
  {
  }

  lemma ActivateDuty(s: State, c: CallId)
    requires Inv(s) && Duties(s) && Enabled(s, Activate(c)) && Grows(s.history, ActivateStep(s, c).history)
    ensures Duties(ActivateStep(s, c))
  {
    hide Inv, Duties, Arm, Reject;
    var Delivering(t, o, _, told) := s.place[c];
    var what := Delivery(s.objects[o].usrIp, s.calls[c].frame);
    NothingYet(s, c);
    if Accepts(s, t) { ArmDuty(s, c, t, what, told); } else { RejectDuty(s, c, o, told); }
  }

  lemma NothingYet(s: State, c: CallId)
    requires Inv(s) && Enabled(s, Activate(c))
    ensures Past(s.history, c) == []
  {
    assert CallInv(s, c);
  }

  lemma LeaveDuty(s: State, t: TaskId, c: CallId, reply: Reply)
    requires Inv(s) && Duties(s) && t in s.tasks && s.tasks[t].active == Some(c)
    requires Grows(s.history, Finish(s, t, c, reply).history)
    ensures Duties(TakeActive(s, t, c, reply)) && Duties(Finish(Without(s, t), t, c, reply))
  {
    assert TaskInv(s, t);
    OneTaskMoves(s, TakeActive(s, t, c, reply), t);
    OneTaskMoves(s, Finish(Without(s, t), t, c, reply), t);
  }

  lemma WithoutDuty(s: State, t: TaskId)
    requires Duties(s)
    ensures Duties(Without(s, t))
  {
  }

  lemma RespondDuty(s: State, t: TaskId, reply: Reply)
    requires Inv(s) && Duties(s) && Enabled(s, Respond(t, reply))
    ensures Duties(RespondStep(s, t, reply))
  {
    hide Inv, Duties, TakeActive;
    if s.tasks[t].active.Some? {
      FinishGrows(s, t, s.tasks[t].active.value, reply);
      LeaveDuty(s, t, s.tasks[t].active.value, reply);
    }
  }

  lemma DropDuty(s: State, t: TaskId)
    requires Inv(s) && Duties(s) && Enabled(s, Drop(t))
    ensures Duties(DropStep(s, t))
  {
    hide Inv, Duties, Finish, Without;
    WithoutDuty(s, t);
    if s.tasks[t].active.Some? {
      FinishGrows(s, t, s.tasks[t].active.value, Cancelled(ServiceFaulted));
      LeaveDuty(s, t, s.tasks[t].active.value, Cancelled(ServiceFaulted));
    }
  }

  lemma FinishGrows(s: State, t: TaskId, c: CallId, reply: Reply)
    ensures Grows(s.history, Finish(s, t, c, reply).history)
  {
    HistoryGrows(s, c, Answer(t, reply), 0, 0);
  }

  lemma FreshDuty(s: State, r: State, t: TaskId)
    requires Duties(s) && Grows(s.history, r.history) && r.tasks == s.tasks[t := FRESH_TASK]
    ensures Duties(r)
  {
    OneTaskMoves(s, r, t);
  }

  lemma TakeBackDuty(s: State, c: CallId, t: TaskId)
    requires Duties(s)
    ensures Duties(TakeBack(s, c, t))
  {
    FreshDuty(s, TakeBack(s, c, t), t);
  }

  lemma RollbackDuty(s: State, c: CallId)
    requires Duties(s) && Enabled(s, Rollback(c))
    ensures Duties(RollbackStep(s, c))
  {
    hide Duties, TakeBack, LetGo;
    TakeBackDuty(s, c, s.waking[c].task);
    MoveDuty(s, c, Lost);
  }

  lemma ResumeDuty(s: State, t: TaskId)
    requires Duties(s) && t in s.tasks
    ensures Duties(ResumeStep(s, t))
  {
    assert OnDuty(s.tasks[t], t, s.history);
    OneTaskMoves(s, ResumeStep(s, t), t);
  }

  lemma RegisterDuty(s: State, c: CallId)
    requires Duties(s) && Enabled(s, Register(c))
    ensures Duties(RegisterStep(s, c))
  {
    hide AllOnDuty;
  }

  lemma WakeDuty(s: State, c: CallId)
    requires Duties(s)
    ensures c in s.calls ==> Duties(MarkRunningStep(s, c))
    ensures c in s.waking ==> Duties(WithdrawStep(s, c))
  {
    hide AllOnDuty;
  }

  lemma UnregisterDuty(s: State, c: CallId)
    requires Duties(s) && Enabled(s, Unregister(c))
    ensures Duties(UnregisterStep(s, c))
  {
    hide Duties, Remove, Move;
    MoveDuty(s, c, Unheard(s.place[c].task, s.place[c].reply));
    RemoveDuty(s, c);
  }

  lemma RemoveDuty(s: State, c: CallId)
    requires Duties(s) && c in s.place && s.place[c].Finishing?
    ensures Duties(Remove(s, c))
  {
    hide AllOnDuty;
  }

  lemma PublishDuty(s: State, c: CallId)
    requires Duties(s) && Enabled(s, Publish(c)) && Grows(s.history, PublishStep(s, c).history)
    ensures Duties(PublishStep(s, c))
  {
    SameTasks(s, PublishStep(s, c));
  }

  lemma MadeDuty(s: State, c: CallId, o: ObjectId, kind: WaitKind, usrIp: nat, frame: seq<nat>)
    requires Duties(s)
    ensures Duties(NewObjectStep(s, o, kind, usrIp)) && Duties(InvokeStep(s, c, o, frame))
    ensures o in s.objects ==> Duties(CloseStep(s, o))
  {
  }

  /** Every section keeps every task's duty. */
  lemma StepDuties(s: State, step: Step)
    requires Inv(s) && Duties(s) && Enabled(s, step)
    ensures Duties(Apply(s, step))
  {
    hide Inv, Duties, Extends, CallsFinal;
    hide NewTaskStep, NewObjectStep, CloseStep, InvokeStep, EnterStep, RegisterStep, ActivateStep, MarkRunningStep;
    hide WithdrawStep, RollbackStep, BeginStep, ParkStep, ResumeStep, RespondStep, DropStep, UnregisterStep, PublishStep;
    StepHistory(s, step);
    match step
    case NewTask(t) => NewTaskDuty(s, t);
    case NewObject(o, kind, usrIp) => MadeDuty(s, 0, o, kind, usrIp, []);
    case Close(o) => MadeDuty(s, 0, o, Object, 0, []);
    case Invoke(c, o, frame) => MadeDuty(s, c, o, Object, 0, frame);
    case Enter(c) => EnterDuty(s, c);
    case Register(c) => RegisterDuty(s, c);
    case Activate(c) => ActivateDuty(s, c);
    case MarkRunning(c) => WakeDuty(s, c);
    case Withdraw(c) => WakeDuty(s, c);
    case Rollback(c) => RollbackDuty(s, c);
    case Begin(t, o) => BeginDuty(s, t, o);
    case Park(t) => ParkDuty(s, t);
    case Resume(t) => ResumeDuty(s, t);
    case Respond(t, reply) => RespondDuty(s, t, reply);
    case Drop(t) => DropDuty(s, t);
    case Unregister(c) => UnregisterDuty(s, c);
    case Publish(c) => PublishDuty(s, c);
  }

  lemma StepHistory(s: State, step: Step)
    requires Inv(s) && Enabled(s, step)
    ensures Grows(s.history, Apply(s, step).history)
  {
    hide Inv, Apply, Enabled;
    StepExtends(s, step);
  }

  lemma NewTaskDuty(s: State, t: TaskId)
    requires Duties(s) && Enabled(s, NewTask(t)) && Grows(s.history, NewTaskStep(s, t).history)
    ensures Duties(NewTaskStep(s, t))
  {
    FreshDuty(s, NewTaskStep(s, t), t);
  }

  /** In every state of every run every task is as its duty says. */
  lemma {:induction false} RunKeepsDuties(states: seq<State>, steps: seq<Step>, k: nat)
    requires Run(states, steps) && k < |states|
    ensures Duties(states[k])
  {
    if k > 0 {
      hide Inv, Apply, Enabled, Duties;
      RunKeepsDuties(states, steps, k - 1);
      RunKeepsInv(states, steps, k - 1);
      RunStep(states, steps, k - 1);
      StepDuties(states[k - 1], steps[k - 1]);
    }
  }
}
