/** What a call carries: from the invocation to the delivery, over every run of the service protocol. */
module ServiceRequests {
  import opened Prelude
  import opened ServiceProtocol
  import opened ServiceInvariant
  import opened ServiceRuns
  import opened ServiceObjects

  /** A place in front of an object is in front of this one. */
  predicate AtObject(p: Place, o: ObjectId) {
    p.Entering? || p.Queued? || p.Delivering? ==> p.obj == o
  }

  predicate Carries(e: Event, what: Delivery) {
    e.Delivered? ==> e.what == what
  }

  /** The call is the request `frame`, on its way to or delivered at the object with this entry point. */
  predicate Faithful(s: State, c: CallId, o: ObjectId, what: Delivery) {
    && c in s.calls && s.calls[c].frame == what.frame
    && o in s.objects && s.objects[o].usrIp == what.usrIp
    && c in s.place && AtObject(s.place[c], o)
    && forall e | e in Past(s.history, c) :: Carries(e, what)
  }

  /** Nothing the request depends on has changed, but for an event that is no other delivery. */
  lemma StaysFaithful(s: State, r: State, c: CallId, o: ObjectId, what: Delivery)
    requires Faithful(s, c, o, what)
    requires c in r.calls && r.calls[c].frame == what.frame && o in r.objects && r.objects[o].usrIp == what.usrIp
    requires c in r.place && AtObject(r.place[c], o)
    requires Past(r.history, c) == Past(s.history, c)
             || exists e :: Past(r.history, c) == Past(s.history, c) + [e] && Carries(e, what)
    ensures Faithful(r, c, o, what)
  {
  }

  lemma EntryFaithful(s: State, d: CallId, p: ObjectId, c: CallId, o: ObjectId, what: Delivery)
    requires Faithful(s, c, o, what) && p in s.objects && d in s.place && s.place[d] == Entering(p)
    ensures Faithful(Move(s, d, Refused), c, o, what) && Faithful(QueueCall(s, d, p), c, o, what)
    ensures s.objects[p].waiters != [] ==> Faithful(MatchWaiter(s, d, p), c, o, what)
  {
  }

  lemma EnterFaithful(s: State, d: CallId, c: CallId, o: ObjectId, what: Delivery)
    requires Faithful(s, c, o, what) && Enabled(s, Enter(d))
    ensures Faithful(EnterStep(s, d), c, o, what)
  {
    EntryFaithful(s, d, s.place[d].obj, c, o, what);
    hide Faithful, Move, QueueCall, MatchWaiter;
  }

  lemma CounterFaithful(s: State, t: TaskId, p: ObjectId, c: CallId, o: ObjectId, what: Delivery)
    requires Faithful(s, c, o, what) && t in s.tasks && p in s.objects
    requires s.objects[p].pending != [] ==>
               s.objects[p].pending[0] in s.place && s.place[s.objects[p].pending[0]] == Queued(p)
    ensures Faithful(AbortWait(s, t, s.objects[p].kind), c, o, what) && Faithful(ParkTask(s, t, p), c, o, what)
    ensures s.objects[p].pending != [] ==> Faithful(MatchCall(s, t, p), c, o, what)
  {
  }

  lemma ParkFaithful(s: State, t: TaskId, c: CallId, o: ObjectId, what: Delivery)
    requires ServiceInvariant.Inv(s) && Faithful(s, c, o, what) && Enabled(s, Park(t))
    ensures Faithful(ParkStep(s, t), c, o, what)
  {
    var p := s.doing[t].obj;
    if s.objects[p].pending != [] { QueuedFirst(s, p); }
    hide ServiceInvariant.Inv;
    CounterFaithful(s, t, p, c, o, what);
    hide Faithful, AbortWait, ParkTask, MatchCall;
  }

  /** The delivery of the call is the one place where its request and its object come together. */
  lemma ArmFaithful(s: State, d: CallId, t: TaskId, p: ObjectId, told: bool, c: CallId, o: ObjectId, what: Delivery)
    requires Faithful(s, c, o, what) && p in s.objects && d in s.calls && d in s.place && t in s.tasks
    requires s.place[d].Delivering? && s.place[d].obj == p
    ensures Faithful(Arm(s, d, t, Delivery(s.objects[p].usrIp, s.calls[d].frame), told), c, o, what)
  {
    var armed := Delivery(s.objects[p].usrIp, s.calls[d].frame);
    var r := Arm(s, d, t, armed, told);
    if d == c { assert Past(r.history, c) == Past(s.history, c) + [Delivered(t, armed)]; }
    StaysFaithful(s, r, c, o, what);
  }

  lemma RejectFaithful(s: State, d: CallId, p: ObjectId, told: bool, c: CallId, o: ObjectId, what: Delivery)
    requires Faithful(s, c, o, what) && d in s.place && s.place[d].Delivering? && s.place[d].obj == p
    ensures Faithful(Reject(s, d, p, told), c, o, what)
  {
  }

  lemma ActivateFaithful(s: State, d: CallId, c: CallId, o: ObjectId, what: Delivery)
    requires Faithful(s, c, o, what) && Enabled(s, Activate(d))
    ensures Faithful(ActivateStep(s, d), c, o, what)
  {
    var Delivering(t, p, _, told) := s.place[d];
    if t in s.tasks { ArmFaithful(s, d, t, p, told, c, o, what); }
    RejectFaithful(s, d, p, told, c, o, what);
    hide Faithful, Arm, Reject;
  }

  lemma RegisterFaithful(s: State, d: CallId, c: CallId, o: ObjectId, what: Delivery)
    requires Faithful(s, c, o, what) && Enabled(s, Register(d))
    ensures Faithful(RegisterStep(s, d), c, o, what)
  {
  }

  lemma WakeFaithful(s: State, d: CallId, t: TaskId, c: CallId, o: ObjectId, what: Delivery)
    requires Faithful(s, c, o, what)
    ensures d in s.calls ==> Faithful(MarkRunningStep(s, d), c, o, what)
    ensures d in s.waking ==> Faithful(WithdrawStep(s, d), c, o, what)
    ensures Faithful(LetGo(s, d), c, o, what) && Faithful(TakeBack(s, d, t), c, o, what)
  {
  }

  lemma RollbackFaithful(s: State, d: CallId, c: CallId, o: ObjectId, what: Delivery)
    requires Faithful(s, c, o, what) && Enabled(s, Rollback(d))
    ensures Faithful(RollbackStep(s, d), c, o, what)
  {
    WakeFaithful(s, d, s.waking[d].task, c, o, what);
    hide Faithful, LetGo, TakeBack;
  }

  lemma FinishFaithful(s: State, t: TaskId, d: CallId, reply: Reply, c: CallId, o: ObjectId, what: Delivery)
    requires Faithful(s, c, o, what)
    ensures Faithful(Finish(s, t, d, reply), c, o, what) && Faithful(Finish(Without(s, t), t, d, reply), c, o, what)
    ensures Faithful(Without(s, t), c, o, what)
    ensures t in s.tasks ==> Faithful(TakeActive(s, t, d, reply), c, o, what)
  {
    var e := Answer(t, reply);
    var r := Finish(s, t, d, reply);
    if d == c { assert Past(r.history, c) == Past(s.history, c) + [e] && Carries(e, what); }
    StaysFaithful(s, r, c, o, what);
    StaysFaithful(s, Finish(Without(s, t), t, d, reply), c, o, what);
    if t in s.tasks { StaysFaithful(s, TakeActive(s, t, d, reply), c, o, what); }
  }

  lemma RespondFaithful(s: State, t: TaskId, reply: Reply, c: CallId, o: ObjectId, what: Delivery)
    requires Faithful(s, c, o, what) && Enabled(s, Respond(t, reply))
    ensures Faithful(RespondStep(s, t, reply), c, o, what)
  {
    if s.tasks[t].active.Some? { FinishFaithful(s, t, s.tasks[t].active.value, reply, c, o, what); }
    hide Faithful, TakeActive;
  }

  lemma DropFaithful(s: State, t: TaskId, c: CallId, o: ObjectId, what: Delivery)
    requires Faithful(s, c, o, what) && Enabled(s, Drop(t))
    ensures Faithful(DropStep(s, t), c, o, what)
  {
    var d := if s.tasks[t].active.Some? then s.tasks[t].active.value else 0;
    FinishFaithful(s, t, d, Cancelled(ServiceFaulted), c, o, what);
    hide Faithful, Finish, Without;
  }

  lemma RemoveFaithful(s: State, d: CallId, c: CallId, o: ObjectId, what: Delivery)
    requires Faithful(s, c, o, what) && Enabled(s, Unregister(d))
    ensures Faithful(Remove(s, d), c, o, what)
    ensures Faithful(Move(s, d, Unheard(s.place[d].task, s.place[d].reply)), c, o, what)
  {
  }

  lemma UnregisterFaithful(s: State, d: CallId, c: CallId, o: ObjectId, what: Delivery)
    requires Faithful(s, c, o, what) && Enabled(s, Unregister(d))
    ensures Faithful(UnregisterStep(s, d), c, o, what)
  {
    RemoveFaithful(s, d, c, o, what);
    hide Faithful, Remove, Move;
  }

  lemma PublishFaithful(s: State, d: CallId, c: CallId, o: ObjectId, what: Delivery)
    requires Faithful(s, c, o, what) && Enabled(s, Publish(d))
    ensures Faithful(PublishStep(s, d), c, o, what)
  {
    var r, e := PublishStep(s, d), Published(s.place[d].reply);
    if d == c { assert Past(r.history, c) == Past(s.history, c) + [e] && Carries(e, what); }
    StaysFaithful(s, r, c, o, what);
  }

  lemma InvokeFaithful(s: State, d: CallId, p: ObjectId, frame: seq<nat>, c: CallId, o: ObjectId, what: Delivery)
    requires Faithful(s, c, o, what) && Enabled(s, Invoke(d, p, frame))
    ensures Faithful(InvokeStep(s, d, p, frame), c, o, what)
  {
  }

  lemma TaskFaithful(s: State, t: TaskId, p: ObjectId, c: CallId, o: ObjectId, what: Delivery)
    requires Faithful(s, c, o, what)
    ensures Faithful(NewTaskStep(s, t), c, o, what)
    ensures t in s.tasks ==> Faithful(ResumeStep(s, t), c, o, what)
    ensures t in s.tasks && p in s.objects ==> Faithful(BeginWait(s, t, p), c, o, what)
  {
  }

  lemma BeginFaithful(s: State, t: TaskId, p: ObjectId, c: CallId, o: ObjectId, what: Delivery)
    requires Faithful(s, c, o, what) && Enabled(s, Begin(t, p))
    ensures Faithful(BeginStep(s, t, p), c, o, what)
  {
    TaskFaithful(s, t, p, c, o, what);
    hide Faithful, BeginWait;
  }

  lemma ObjectFaithful(s: State, p: ObjectId, kind: WaitKind, usrIp: nat, c: CallId, o: ObjectId, what: Delivery)
    requires Faithful(s, c, o, what)
    ensures p !in s.objects ==> Faithful(NewObjectStep(s, p, kind, usrIp), c, o, what)
    ensures p in s.objects ==> Faithful(CloseStep(s, p), c, o, what)
  {
  }

  lemma StepFaithful(s: State, step: Step, c: CallId, o: ObjectId, what: Delivery)
    requires ServiceInvariant.Inv(s) && Faithful(s, c, o, what) && Enabled(s, step)
    ensures Faithful(Apply(s, step), c, o, what)
  {
    hide ServiceInvariant.Inv, Faithful;
    hide NewTaskStep, NewObjectStep, CloseStep, InvokeStep, EnterStep, RegisterStep, ActivateStep, MarkRunningStep;
    hide WithdrawStep, RollbackStep, BeginStep, ParkStep, ResumeStep, RespondStep, DropStep, UnregisterStep, PublishStep;
    match step
    case NewTask(t) => TaskFaithful(s, t, 0, c, o, what);
    case NewObject(p, kind, usrIp) => ObjectFaithful(s, p, kind, usrIp, c, o, what);
    case Close(p) => ObjectFaithful(s, p, Object, 0, c, o, what);
    case Invoke(d, p, frame) => InvokeFaithful(s, d, p, frame, c, o, what);
    case Enter(d) => EnterFaithful(s, d, c, o, what);
    case Register(d) => RegisterFaithful(s, d, c, o, what);
    case Activate(d) => ActivateFaithful(s, d, c, o, what);
    case MarkRunning(d) => WakeFaithful(s, d, 0, c, o, what);
    case Withdraw(d) => WakeFaithful(s, d, 0, c, o, what);
    case Rollback(d) => RollbackFaithful(s, d, c, o, what);
    case Begin(t, p) => BeginFaithful(s, t, p, c, o, what);
    case Park(t) => ParkFaithful(s, t, c, o, what);
    case Resume(t) => TaskFaithful(s, t, 0, c, o, what);
    case Respond(t, reply) => RespondFaithful(s, t, reply, c, o, what);
    case Drop(t) => DropFaithful(s, t, c, o, what);
    case Unregister(d) => UnregisterFaithful(s, d, c, o, what);
    case Publish(d) => PublishFaithful(s, d, c, o, what);
  }

  lemma FreshFaithful(s: State, c: CallId, o: ObjectId, frame: seq<nat>)
    requires ServiceInvariant.Inv(s) && Enabled(s, Invoke(c, o, frame))
    ensures Faithful(Apply(s, Invoke(c, o, frame)), c, o, Delivery(s.objects[o].usrIp, frame))
  {
  }

  /**
   In every run, from the invocation on: the call holds the very request it was invoked with, and whatever has been
   delivered of it is that request at the entry point of the object it was invoked on.
   */
  lemma {:induction false} RequestArrives(states: seq<State>, steps: seq<Step>, i: nat, j: nat,
                                          c: CallId, o: ObjectId, frame: seq<nat>)
    requires Run(states, steps) && i < |steps| && i < j < |states| && steps[i] == Invoke(c, o, frame)
    ensures o in states[i].objects
    ensures var s, what := states[j], Delivery(states[i].objects[o].usrIp, frame);
            && c in s.calls && s.calls[c].frame == frame && o in s.objects && s.objects[o].usrIp == what.usrIp
            && forall t, w: Delivery | Delivered(t, w) in Past(s.history, c) :: w == what
    decreases j
  {
    RunStep(states, steps, i);
    assert o in states[i].objects;
    var what := Delivery(states[i].objects[o].usrIp, frame);
    FaithfulFrom(states, steps, i, j, c, o, frame);
    forall t, w: Delivery | Delivered(t, w) in Past(states[j].history, c) ensures w == what {
      assert Carries(Delivered(t, w), what);
    }
  }

  lemma {:induction false} FaithfulFrom(states: seq<State>, steps: seq<Step>, i: nat, j: nat,
                                        c: CallId, o: ObjectId, frame: seq<nat>)
    requires Run(states, steps) && i < |steps| && i < j < |states| && steps[i] == Invoke(c, o, frame)
    requires o in states[i].objects
    ensures Faithful(states[j], c, o, Delivery(states[i].objects[o].usrIp, frame))
    decreases j
  {
    hide *;
    RunBounds(states, steps);
    RunStep(states, steps, j - 1);
    RunKeepsInv(states, steps, j - 1);
    if j == i + 1 {
      FreshFaithful(states[i], c, o, frame);
    } else {
      FaithfulFrom(states, steps, i, j - 1, c, o, frame);
      StepFaithful(states[j - 1], steps[j - 1], c, o, Delivery(states[i].objects[o].usrIp, frame));
    }
  }

  lemma RunBounds(states: seq<State>, steps: seq<Step>)
    requires Run(states, steps)
    ensures |states| == |steps| + 1
  {
  }

  // ---- Objects

  predicate Built(s: State, o: ObjectId, kind: WaitKind, usrIp: nat) {
    o in s.objects && s.objects[o].kind == kind && s.objects[o].usrIp == usrIp
  }

  lemma StepBuilt(s: State, step: Step, o: ObjectId, kind: WaitKind, usrIp: nat)
    requires Enabled(s, step) && Built(s, o, kind, usrIp)
    ensures Built(Apply(s, step), o, kind, usrIp)
  {
    match step
    case Enter(c) => EnterDoes(s, c, s.place[c].obj);
    case Park(t) => ParkDoes(s, t, s.doing[t].obj);
    case Respond(t, reply) => RespondDoes(s, t, reply);
    case Begin(t, p) => BeginDoes(s, t, p);
    case Unregister(c) => UnregisterDoes(s, c, s.place[c].task, s.place[c].reply);
    case Activate(c) => ActivateDoes(s, c, s.place[c].task, s.place[c].obj, s.place[c].byInvoker);
    case Rollback(c) => RollbackDoes(s, c, s.waking[c].task);
    case Drop(t) => DropBuilt(s, t);
    case _ => StillBuilt(s, step, o, kind, usrIp);
  }

  lemma DropBuilt(s: State, t: TaskId)
    requires Enabled(s, Drop(t))
    ensures Apply(s, Drop(t)).objects == s.objects
  {
    var active := s.tasks[t].active;
    if active.Some? { assert Finish(Without(s, t), t, active.value, Cancelled(ServiceFaulted)).objects == s.objects; }
    assert Without(s, t).objects == s.objects;
    hide Finish, Without;
  }

  lemma StillBuilt(s: State, step: Step, o: ObjectId, kind: WaitKind, usrIp: nat)
    requires Enabled(s, step) && Built(s, o, kind, usrIp)
    requires step.NewTask? || step.NewObject? || step.Close? || step.Invoke? || step.Register? || step.MarkRunning?
             || step.Withdraw? || step.Resume? || step.Publish?
    ensures Built(Apply(s, step), o, kind, usrIp)
  {
  }

  /** An object keeps, over every run, the kind and the entry point it was made with. */
  lemma {:induction false} ObjectStays(states: seq<State>, steps: seq<Step>, i: nat, j: nat,
                                       o: ObjectId, kind: WaitKind, usrIp: nat)
    requires Run(states, steps) && i < |steps| && i < j < |states| && steps[i] == NewObject(o, kind, usrIp)
    ensures o in states[j].objects && states[j].objects[o].kind == kind && states[j].objects[o].usrIp == usrIp
    decreases j
  {
    hide Run, Enabled, Apply;
    RunBounds(states, steps);
    RunStep(states, steps, j - 1);
    if j == i + 1 {
      MadeBuilt(states[i], o, kind, usrIp);
    } else {
      ObjectStays(states, steps, i, j - 1, o, kind, usrIp);
      StepBuilt(states[j - 1], steps[j - 1], o, kind, usrIp);
    }
  }

  lemma MadeBuilt(s: State, o: ObjectId, kind: WaitKind, usrIp: nat)
    requires Enabled(s, NewObject(o, kind, usrIp))
    ensures Built(Apply(s, NewObject(o, kind, usrIp)), o, kind, usrIp)
  {
  }

  predicate Frozen(s: State, o: ObjectId, shut: UserObject) {
    o in s.objects && s.objects[o] == shut && !shut.open
  }

  lemma StepFrozen(s: State, step: Step, o: ObjectId, shut: UserObject)
    requires Enabled(s, step) && Frozen(s, o, shut)
    ensures Frozen(Apply(s, step), o, shut)
  {
    match step
    case Enter(c) => EnterDoes(s, c, s.place[c].obj);
    case Park(t) => ParkDoes(s, t, s.doing[t].obj);
    case Respond(t, reply) => RespondDoes(s, t, reply);
    case Begin(t, p) => BeginDoes(s, t, p);
    case Unregister(c) => UnregisterDoes(s, c, s.place[c].task, s.place[c].reply);
    case Activate(c) => ActivateDoes(s, c, s.place[c].task, s.place[c].obj, s.place[c].byInvoker);
    case Rollback(c) => RollbackDoes(s, c, s.waking[c].task);
    case Drop(t) => DropBuilt(s, t);
    case _ => StillFrozen(s, step, o, shut);
  }

  lemma StillFrozen(s: State, step: Step, o: ObjectId, shut: UserObject)
    requires Enabled(s, step) && Frozen(s, o, shut)
    requires step.NewTask? || step.NewObject? || step.Close? || step.Invoke? || step.Register? || step.MarkRunning?
             || step.Withdraw? || step.Resume? || step.Publish?
    ensures Frozen(Apply(s, step), o, shut)
  {
  }

  lemma ClosedIsFrozen(s: State, o: ObjectId)
    requires Enabled(s, Close(o))
    ensures Frozen(Apply(s, Close(o)), o, s.objects[o].(open := false))
  {
  }

  /** From its closing on an object takes in and hands out nothing: its queues stay as they were. */
  lemma {:induction false} ClosedStays(states: seq<State>, steps: seq<Step>, i: nat, j: nat, o: ObjectId)
    requires Run(states, steps) && i < |steps| && i < j < |states| && steps[i] == Close(o)
    ensures o in states[i].objects && Frozen(states[j], o, states[i].objects[o].(open := false))
    decreases j
  {
    hide Run, Enabled, Apply, Frozen;
    RunBounds(states, steps);
    RunStep(states, steps, j - 1);
    if j == i + 1 {
      CloseFinds(states[i], o);
      ClosedIsFrozen(states[i], o);
    } else {
      ClosedStays(states, steps, i, j - 1, o);
      StepFrozen(states[j - 1], steps[j - 1], o, states[i].objects[o].(open := false));
    }
  }

  lemma CloseFinds(s: State, o: ObjectId)
    requires Enabled(s, Close(o))
    ensures o in s.objects
  {
  }

  /** So a call that is pending when its object closes stays pending and is never answered. */
  lemma PendingAtClose(states: seq<State>, steps: seq<Step>, i: nat, j: nat, o: ObjectId, c: CallId)
    requires Run(states, steps) && i < |steps| && i < j < |states| && steps[i] == Close(o)
    requires o in states[i].objects && c in states[i].objects[o].pending
    ensures o in states[j].objects && c in states[j].objects[o].pending
    ensures c in states[j].calls && states[j].calls[c].reply == None
  {
    hide Run, Enabled, Apply;
    ClosedStays(states, steps, i, j, o);
    RunKeepsInv(states, steps, j);
    PendingUnanswered(states[j], o, c);
  }

  lemma PendingUnanswered(s: State, o: ObjectId, c: CallId)
    requires ServiceInvariant.Inv(s) && o in s.objects && c in s.objects[o].pending
    ensures c in s.calls && s.calls[c].reply == None
  {
    assert ObjectInv(s, o);
    assert CallInv(s, c);
  }
}
