/**
 Which calls end without an answer, in kernel/src/service/dispatcher.rs and kernel/src/service/object.rs: exactly those
 that are taken back from a task that could not be woken.
 */
module ServiceLosses {
  import opened Prelude
  import opened ServiceProtocol
  import opened ServiceInvariant
  import opened ServiceRuns

  /** The guard, before the step, of the steps with which a call ends without an answer. */
  predicate Loses(s: State, step: Step, c: CallId) {
    (step == Rollback(c) && c in s.place && s.place[c].Serving?) || (step == Unregister(c) && c in s.unwoken)
  }

  /** The same tasks could not be woken and the same calls have ended without an answer. */
  ghost predicate SameEnds(s: State, r: State) {
    r.unwoken == s.unwoken && forall c :: Unanswered(r, c) <==> Unanswered(s, c)
  }

  lemma MoveEnds(s: State, r: State, d: CallId)
    requires d in r.place && r.place == s.place[d := r.place[d]] && !Unanswered(s, d) && !Unanswered(r, d)
    requires r.unwoken == s.unwoken
    ensures SameEnds(s, r)
  {
  }

  lemma EntryEnds(s: State, c: CallId, o: ObjectId)
    requires c in s.place && s.place[c] == Entering(o) && o in s.objects
    ensures SameEnds(s, Move(s, c, Refused)) && SameEnds(s, QueueCall(s, c, o))
    ensures s.objects[o].waiters != [] ==> SameEnds(s, MatchWaiter(s, c, o))
  {
    hide SameEnds;
    MoveEnds(s, Move(s, c, Refused), c);
    MoveEnds(s, QueueCall(s, c, o), c);
    if s.objects[o].waiters != [] { MoveEnds(s, MatchWaiter(s, c, o), c); }
  }

  lemma EnterEnds(s: State, c: CallId)
    requires Enabled(s, Enter(c))
    ensures SameEnds(s, EnterStep(s, c))
  {
    hide SameEnds, Move, QueueCall, MatchWaiter;
    EntryEnds(s, c, s.place[c].obj);
  }

  lemma CounterEnds(s: State, t: TaskId, o: ObjectId)
    requires Inv(s) && t in s.tasks && o in s.objects
    ensures SameEnds(s, AbortWait(s, t, s.objects[o].kind)) && SameEnds(s, ParkTask(s, t, o))
    ensures s.objects[o].pending != [] ==> SameEnds(s, MatchCall(s, t, o))
  {
    hide SameEnds, Inv;
    QuietEnds(s, AbortWait(s, t, s.objects[o].kind));
    QuietEnds(s, ParkTask(s, t, o));
    if s.objects[o].pending != [] {
      QueuedFirst(s, o);
      MoveEnds(s, MatchCall(s, t, o), s.objects[o].pending[0]);
    }
  }

  lemma ParkEnds(s: State, t: TaskId)
    requires Inv(s) && Enabled(s, Park(t))
    ensures SameEnds(s, ParkStep(s, t))
  {
    hide SameEnds, Inv, AbortWait, ParkTask, MatchCall;
    CounterEnds(s, t, s.doing[t].obj);
  }

  lemma RegisterEnds(s: State, c: CallId)
    requires Enabled(s, Register(c))
    ensures SameEnds(s, RegisterStep(s, c))
  {
    hide SameEnds;
    MoveEnds(s, RegisterStep(s, c), c);
  }

  lemma ArmEnds(s: State, c: CallId, t: TaskId, what: Delivery, told: bool, o: ObjectId)
    requires c in s.place && s.place[c].Delivering?
    ensures t in s.tasks ==> SameEnds(s, Arm(s, c, t, what, told))
    ensures SameEnds(s, Reject(s, c, o, told))
  {
    hide SameEnds;
    if t in s.tasks { MoveEnds(s, Arm(s, c, t, what, told), c); }
    MoveEnds(s, Reject(s, c, o, told), c);
  }

  lemma ActivateEnds(s: State, c: CallId)
    requires Enabled(s, Activate(c))
    ensures SameEnds(s, ActivateStep(s, c))
  {
    hide SameEnds, Arm, Reject;
    var Delivering(t, o, _, byInvoker) := s.place[c];
    ArmEnds(s, c, t, Delivery(s.objects[o].usrIp, s.calls[c].frame), byInvoker, o);
  }

  lemma InvokeEnds(s: State, c: CallId, o: ObjectId, frame: seq<nat>)
    requires Enabled(s, Invoke(c, o, frame))
    ensures SameEnds(s, InvokeStep(s, c, o, frame))
  {
    hide SameEnds;
    MoveEnds(s, InvokeStep(s, c, o, frame), c);
  }

  lemma AnswerEnds(s: State, t: TaskId, c: CallId, reply: Reply)
    requires t in s.tasks && c in s.place && s.place[c] == Serving(t)
    ensures SameEnds(s, TakeActive(s, t, c, reply)) && SameEnds(s, Finish(Without(s, t), t, c, reply))
  {
    hide SameEnds;
    MoveEnds(s, TakeActive(s, t, c, reply), c);
    MoveEnds(s, Finish(Without(s, t), t, c, reply), c);
  }

  lemma RespondEnds(s: State, t: TaskId, reply: Reply)
    requires Inv(s) && Enabled(s, Respond(t, reply))
    ensures SameEnds(s, RespondStep(s, t, reply))
  {
    assert TaskInv(s, t);
    hide SameEnds, TakeActive;
    if s.tasks[t].active.Some? { AnswerEnds(s, t, s.tasks[t].active.value, reply); }
    else { QuietEnds(s, s); }
  }

  lemma DropEnds(s: State, t: TaskId)
    requires Inv(s) && Enabled(s, Drop(t))
    ensures SameEnds(s, DropStep(s, t))
  {
    assert TaskInv(s, t);
    hide SameEnds, Finish;
    if s.tasks[t].active.Some? { AnswerEnds(s, t, s.tasks[t].active.value, Cancelled(ServiceFaulted)); }
    else { QuietEnds(s, Without(s, t)); }
  }

  lemma PublishEnds(s: State, c: CallId)
    requires Enabled(s, Publish(c))
    ensures SameEnds(s, PublishStep(s, c))
  {
    hide SameEnds;
    MoveEnds(s, PublishStep(s, c), c);
  }

  lemma QuietEnds(s: State, r: State)
    requires r.place == s.place && r.unwoken == s.unwoken
    ensures SameEnds(s, r)
  {
  }

  /** A call that is taken back ends, unless its task has let go of it. */
  lemma RollbackEnds(s: State, d: CallId, c: CallId)
    requires Inv(s) && Enabled(s, Rollback(d))
    ensures RollbackStep(s, d).unwoken == s.unwoken
    ensures Unanswered(RollbackStep(s, d), c) <==> Unanswered(s, c) || (c == d && d in s.place && s.place[d].Serving?)
  {
    assert CallInv(s, d);
    var t := s.waking[d].task;
    if t in s.tasks { assert TaskInv(s, t); }
  }

  lemma RemoveEnds(s: State, d: CallId)
    requires Enabled(s, Unregister(d))
    ensures SameEnds(s, Remove(s, d))
  {
    hide SameEnds;
    MoveEnds(s, Remove(s, d), d);
  }

  lemma UnheardEnds(s: State, d: CallId, c: CallId)
    requires Enabled(s, Unregister(d))
    ensures var r := Move(s, d, Unheard(s.place[d].task, s.place[d].reply));
            r.unwoken == s.unwoken && (Unanswered(r, c) <==> Unanswered(s, c) || c == d)
  {
  }

  /** A call that is finished after its registration was undone ends. */
  lemma UnregisterEnds(s: State, d: CallId, c: CallId)
    requires Inv(s) && Enabled(s, Unregister(d))
    ensures UnregisterStep(s, d).unwoken == s.unwoken
    ensures Unanswered(UnregisterStep(s, d), c) <==> Unanswered(s, c) || (c == d && d in s.unwoken)
  {
    assert CallInv(s, d);
    RemoveEnds(s, d);
    UnheardEnds(s, d, c);
    hide Inv, CallInv, Move, Remove;
  }

  /** The guard is exact, and such an end is final. */
  lemma StepLoses(s: State, step: Step, c: CallId)
    requires Inv(s) && Enabled(s, step)
    ensures Unanswered(Apply(s, step), c) <==> Unanswered(s, c) || Loses(s, step, c)
  {
    if step == Rollback(c) { RollbackEnds(s, c, c); }
    else if step == Unregister(c) { UnregisterEnds(s, c, c); }
    else { OtherStepEnds(s, step, c); }
  }

  lemma OtherStepEnds(s: State, step: Step, c: CallId)
    requires Inv(s) && Enabled(s, step) && step != Rollback(c) && step != Unregister(c)
    ensures Unanswered(Apply(s, step), c) <==> Unanswered(s, c)
  {
    match step
    case Rollback(d) => RollbackEnds(s, d, c);
    case Unregister(d) => UnregisterEnds(s, d, c);
    case Withdraw(d) => assert WithdrawStep(s, d).place == s.place;
    case _ => SectionEnds(s, step);
  }

  lemma BeginEnds(s: State, t: TaskId, o: ObjectId)
    requires Enabled(s, Begin(t, o))
    ensures SameEnds(s, BeginStep(s, t, o))
  {
    hide SameEnds;
    QuietEnds(s, s);
    QuietEnds(s, BeginWait(s, t, o));
    hide BeginWait;
  }

  lemma TaskEnds(s: State, t: TaskId)
    ensures SameEnds(s, NewTaskStep(s, t))
    ensures t in s.tasks ==> SameEnds(s, ResumeStep(s, t))
  {
  }

  lemma ObjectEnds(s: State, o: ObjectId, kind: WaitKind, usrIp: nat)
    ensures SameEnds(s, NewObjectStep(s, o, kind, usrIp))
    ensures o in s.objects ==> SameEnds(s, CloseStep(s, o))
  {
  }

  lemma MarkEnds(s: State, c: CallId)
    requires c in s.calls
    ensures SameEnds(s, MarkRunningStep(s, c))
  {
  }

  lemma SectionEnds(s: State, step: Step)
    requires Inv(s) && Enabled(s, step) && !step.Withdraw? && !step.Rollback? && !step.Unregister?
    ensures SameEnds(s, Apply(s, step))
  {
    hide Inv, SameEnds;
    hide NewTaskStep, NewObjectStep, CloseStep, InvokeStep, EnterStep, RegisterStep, ActivateStep, MarkRunningStep;
    hide WithdrawStep, RollbackStep, BeginStep, ParkStep, ResumeStep, RespondStep, DropStep, UnregisterStep, PublishStep;
    match step
    case NewTask(t) => TaskEnds(s, t);
    case NewObject(o, kind, usrIp) => ObjectEnds(s, o, kind, usrIp);
    case Close(o) => ObjectEnds(s, o, Object, 0);
    case Invoke(c, o, frame) => InvokeEnds(s, c, o, frame);
    case Enter(c) => EnterEnds(s, c);
    case Register(c) => RegisterEnds(s, c);
    case Activate(c) => ActivateEnds(s, c);
    case MarkRunning(c) => MarkEnds(s, c);
    case Begin(t, o) => BeginEnds(s, t, o);
    case Park(t) => ParkEnds(s, t);
    case Resume(t) => TaskEnds(s, t);
    case Respond(t, reply) => RespondEnds(s, t, reply);
    case Drop(t) => DropEnds(s, t);
    case Publish(c) => PublishEnds(s, c);
  }

  /** Over any run a call ends without an answer exactly by such a step. */
  lemma {:induction false} RunLosesIff(states: seq<State>, steps: seq<Step>, k: nat, c: CallId)
    requires Run(states, steps) && k < |states|
    ensures Unanswered(states[k], c) <==> exists i | 0 <= i < k :: Loses(states[i], steps[i], c)
  {
    if k > 0 {
      hide Inv, Apply, Enabled, Loses, Unanswered;
      RunLosesIff(states, steps, k - 1, c);
      RunKeepsInv(states, steps, k - 1);
      RunStep(states, steps, k - 1);
      StepLoses(states[k - 1], steps[k - 1], c);
    }
  }

  lemma UnwokenKept(s: State, step: Step)
    requires Inv(s) && Enabled(s, step) && !step.Withdraw?
    ensures Apply(s, step).unwoken == s.unwoken
  {
    match step
    case Rollback(c) => RollbackEnds(s, c, c);
    case Unregister(c) => UnregisterEnds(s, c, c);
    case _ => SectionEnds(s, step);
  }

  /** While every task is woken no call is lost. */
  lemma {:induction false} WokenRunLosesNothing(states: seq<State>, steps: seq<Step>, k: nat, c: CallId)
    requires Run(states, steps) && k < |states| && forall i | 0 <= i < k :: !steps[i].Withdraw?
    ensures states[k].unwoken == map[] && !Unanswered(states[k], c)
  {
    hide Apply, Enabled, Inv;
    if k > 0 {
      WokenRunLosesNothing(states, steps, k - 1, c);
      RunKeepsInv(states, steps, k - 1);
      RunStep(states, steps, k - 1);
      UnwokenKept(states[k - 1], steps[k - 1]);
    }
    RunKeepsInv(states, steps, k);
    if Unanswered(states[k], c) {
      PlacedCalls(states[k], c);
      NeverLost(states[k], c);
    }
  }

  lemma PlacedCalls(s: State, c: CallId)
    requires Inv(s) && c in s.place
    ensures c in s.calls
  {
  }

  const LOSING_STEPS: seq<Step> :=
    [NewObject(0, Object, 0), NewTask(0), Invoke(0, 0, []), Enter(0), Begin(0, 0), Park(0), Register(0), Activate(0),
     Withdraw(0), Rollback(0)]

  const LOSING_RUN: seq<State> :=
    var empty := UserObject(Object, 0, true, [], []);
    var begun := FRESH_TASK.(waiting := true, waitKind := Some(Object), role := Some(Object));
    var armed := FRESH_TASK.(role := Some(Object), active := Some(0), delivery := Some(Delivery(0, [])));
    var s1 := INITIAL.(objects := map[0 := empty]);
    var s2 := s1.(tasks := map[0 := FRESH_TASK], doing := map[0 := Idle]);
    var s3 := s2.(calls := map[0 := Call([], Pending, None)], place := map[0 := Entering(0)]);
    var s4 := s3.(objects := map[0 := empty.(pending := [0])], place := map[0 := Queued(0)], submitted := map[0 := [0]]);
    var s5 := s4.(tasks := map[0 := begun], doing := map[0 := Begun(0)]);
    var s6 := s5.(objects := map[0 := empty], place := map[0 := Delivering(0, 0, false, false)],
                  doing := map[0 := Receiving(0)], handed := map[0 := [0]]);
    var s7 := s6.(place := map[0 := Delivering(0, 0, true, false)], inflight := {0});
    var s8 := s7.(tasks := map[0 := armed], place := map[0 := Serving(0)], doing := map[0 := Idle],
                  waking := map[0 := Waking(0, false, false)], history := map[0 := [Delivered(0, Delivery(0, []))]]);
    var s9 := s8.(inflight := {}, waking := map[0 := Waking(0, false, true)], unwoken := map[0 := false]);
    var s10 := s9.(tasks := map[0 := FRESH_TASK], place := map[0 := Withdrawn(0)], waking := map[]);
    [INITIAL, s1, s2, s3, s4, s5, s6, s7, s8, s9, s10]

  ghost predicate LosingStep(i: nat)
    requires i < |LOSING_STEPS|
  {
    Enabled(LOSING_RUN[i], LOSING_STEPS[i]) && LOSING_RUN[i + 1] == Apply(LOSING_RUN[i], LOSING_STEPS[i])
  }

  lemma ObjectAppears()
    ensures LosingStep(0)
  {
    assert NewObjectStep(LOSING_RUN[0], 0, Object, 0).objects == LOSING_RUN[1].objects;
  }

  lemma TaskAppears()
    ensures LosingStep(1)
  {
    assert NewTaskStep(LOSING_RUN[1], 0).tasks == LOSING_RUN[2].tasks;
    assert NewTaskStep(LOSING_RUN[1], 0).doing == LOSING_RUN[2].doing;
  }

  lemma CallIsMade()
    ensures LosingStep(2)
  {
    assert InvokeStep(LOSING_RUN[2], 0, 0, []).calls == LOSING_RUN[3].calls;
    assert InvokeStep(LOSING_RUN[2], 0, 0, []).place == LOSING_RUN[3].place;
  }

  lemma CallIsQueued()
    ensures LosingStep(3)
  {
    var r := QueueCall(LOSING_RUN[3], 0, 0);
    assert Apply(LOSING_RUN[3], Enter(0)) == r;
    assert r.objects[0].pending == [0] && r.submitted[0] == [0];
    assert r.objects == LOSING_RUN[4].objects;
    assert r.place == LOSING_RUN[4].place;
    assert r.submitted == LOSING_RUN[4].submitted;
  }

  lemma TaskWaits()
    ensures LosingStep(4)
  {
    var r := BeginStep(LOSING_RUN[4], 0, 0);
    assert r.tasks == LOSING_RUN[5].tasks;
    assert r.doing == LOSING_RUN[5].doing;
  }

  lemma CallIsPopped()
    ensures LosingStep(5)
  {
    var r := MatchCall(LOSING_RUN[5], 0, 0);
    assert Apply(LOSING_RUN[5], Park(0)) == r;
    assert r.objects[0].pending == [] && r.handed[0] == [0];
    assert r.objects == LOSING_RUN[6].objects;
    assert r.place == LOSING_RUN[6].place;
    assert r.doing == LOSING_RUN[6].doing;
    assert r.handed == LOSING_RUN[6].handed;
  }

  lemma CallIsRegistered()
    ensures LosingStep(6)
  {
    var r := RegisterStep(LOSING_RUN[6], 0);
    assert r.place == LOSING_RUN[7].place;
    assert r.inflight == LOSING_RUN[7].inflight;
  }

  lemma CallIsArmed()
    ensures LosingStep(7)
  {
    var r := Arm(LOSING_RUN[7], 0, 0, Delivery(0, []), false);
    assert Apply(LOSING_RUN[7], Activate(0)) == r;
    assert r.history[0] == [Delivered(0, Delivery(0, []))];
    assert r.tasks == LOSING_RUN[8].tasks;
    assert r.place == LOSING_RUN[8].place;
    assert r.doing == LOSING_RUN[8].doing;
    assert r.waking == LOSING_RUN[8].waking;
    assert r.history == LOSING_RUN[8].history;
  }

  lemma CallIsWithdrawn()
    ensures LosingStep(8)
  {
    var r := WithdrawStep(LOSING_RUN[8], 0);
    assert r.inflight == LOSING_RUN[9].inflight;
    assert r.waking == LOSING_RUN[9].waking;
    assert r.unwoken == LOSING_RUN[9].unwoken;
  }

  lemma CallIsTakenBack()
    ensures LosingStep(9)
  {
    var r := TakeBack(LOSING_RUN[9], 0, 0);
    assert Apply(LOSING_RUN[9], Rollback(0)) == r;
    assert r.tasks == LOSING_RUN[10].tasks;
    assert r.place == LOSING_RUN[10].place;
    assert r.waking == LOSING_RUN[10].waking;
  }

  lemma LosingRunIsRun()
    ensures Run(LOSING_RUN, LOSING_STEPS)
  {
    hide Enabled, Apply;
    ObjectAppears();
    TaskAppears();
    CallIsMade();
    CallIsQueued();
    TaskWaits();
    CallIsPopped();
    CallIsRegistered();
    CallIsArmed();
    CallIsWithdrawn();
    CallIsTakenBack();
    forall i: nat | i < |LOSING_STEPS| ensures LosingStep(i) {
      assert i == 0 || i == 1 || i == 2 || i == 3 || i == 4 || i == 5 || i == 6 || i == 7 || i == 8 || i == 9;
    }
  }

  /**
   A wait whose task cannot be woken drops the call it popped: the call is pending nowhere, served by no one and not in
   flight, its caller is not told, and there is no reply.
   */
  lemma WaitLosesCall()
    ensures Run(LOSING_RUN, LOSING_STEPS)
    ensures var s := LOSING_RUN[10];
            && Unanswered(s, 0) && s.unwoken == map[0 := false] && s.calls == map[0 := Call([], Pending, None)]
            && s.inflight == {} && s.objects == map[0 := UserObject(Object, 0, true, [], [])]
            && s.tasks == map[0 := FRESH_TASK]
  {
    hide Run;
    LosingRunIsRun();
  }
}
