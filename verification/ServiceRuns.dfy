/** The service protocol over whole runs: where calls are, who answers them, and in which order they are served. */
module ServiceRuns {
  import opened Prelude
  import opened ServiceProtocol
  import opened ServiceInvariant

  lemma TasksAreDoing(s: State)
    requires Inv(s)
    ensures s.tasks.Keys == s.doing.Keys
  {
    forall t | t in s.tasks ensures t in s.doing { assert TaskInv(s, t); }
  }

  lemma RefuseInv(s: State, c: CallId)
    requires Inv(s) && Enabled(s, Enter(c))
    ensures Inv(Move(s, c, Refused))
  {
    assert CallInv(s, c);
    OneCallInv(s, Move(s, c, Refused), c);
  }

  lemma EnterInv(s: State, c: CallId)
    requires Inv(s) && Enabled(s, Enter(c))
    ensures Inv(EnterStep(s, c))
  {
    var o := s.place[c].obj;
    assert CallInv(s, c) && ObjectInv(s, o);
    hide Inv, Move, QueueCall, MatchWaiter;
    if !s.objects[o].open { RefuseInv(s, c); }
    else if s.objects[o].waiters == [] { QueueInv(s, c, o); }
    else { MatchWaiterInv(s, c, o); }
  }

  lemma AbortInv(s: State, t: TaskId, o: ObjectId)
    requires Inv(s) && AtCounter(s, t, o)
    ensures Inv(AbortWait(s, t, s.objects[o].kind))
  {
    TasksAreDoing(s);
    OneTaskInv(s, AbortWait(s, t, s.objects[o].kind), t);
  }

  lemma QueuedFirst(s: State, o: ObjectId)
    requires Inv(s) && o in s.objects && s.objects[o].pending != []
    ensures var c := s.objects[o].pending[0];
            c in s.calls && CallInv(s, c) && c in s.place && s.place[c] == Queued(o)
  {
    assert ObjectInv(s, o);
    assert s.objects[o].pending[0] in s.objects[o].pending;
    assert CallInv(s, s.objects[o].pending[0]);
  }

  lemma ParkInv(s: State, t: TaskId)
    requires Inv(s) && Enabled(s, Park(t))
    ensures Inv(ParkStep(s, t))
  {
    var o := s.doing[t].obj;
    assert TaskInv(s, t) && ObjectInv(s, o);
    hide Inv, TaskInv, ObjectInv, CallInv, AbortWait, ParkTask, MatchCall;
    if !s.objects[o].open { AbortInv(s, t, o); }
    else if s.objects[o].pending == [] { ParkTaskInv(s, t, o); }
    else {
      QueuedFirst(s, o);
      MatchCallInv(s, t, o);
    }
  }

  lemma ActivateInv(s: State, c: CallId)
    requires Inv(s) && Enabled(s, Activate(c))
    ensures Inv(ActivateStep(s, c))
  {
    var t := s.place[c].task;
    DeliveryAccepted(s, c);
    assert CallInv(s, c) && TaskInv(s, t);
    ArmInv(s, c, t, Delivery(s.objects[s.place[c].obj].usrIp, s.calls[c].frame), s.place[c].byInvoker);
  }

  lemma LeaveInv(s: State, t: TaskId, reply: Reply)
    requires Inv(s) && Enabled(s, Drop(t))
    ensures Inv(RespondStep(s, t, reply)) && Inv(DropStep(s, t))
  {
    assert TaskInv(s, t);
    if s.tasks[t].active.Some? {
      var c := s.tasks[t].active.value;
      assert CallInv(s, c);
      RespondInv(s, t, c, reply);
      DropInv(s, t, c);
    } else {
      TasksAreDoing(s);
      OneTaskInv(s, DropStep(s, t), t);
    }
  }

  lemma NewTaskInv(s: State, t: TaskId)
    requires Inv(s) && Enabled(s, NewTask(t))
    ensures Inv(NewTaskStep(s, t))
  {
    TasksAreDoing(s);
    OneTaskInv(s, NewTaskStep(s, t), t);
  }

  lemma BeginInv(s: State, t: TaskId, o: ObjectId)
    requires Inv(s) && Enabled(s, Begin(t, o))
    ensures Inv(BeginStep(s, t, o))
  {
    assert TaskInv(s, t);
    if BeginStep(s, t, o) == BeginWait(s, t, o) && s.tasks[t].active == None && !s.tasks[t].waiting {
      TasksAreDoing(s);
      OneTaskInv(s, BeginWait(s, t, o), t);
    }
  }

  lemma ResumeInv(s: State, t: TaskId)
    requires Inv(s) && t in s.tasks
    ensures Inv(ResumeStep(s, t))
  {
    var r := ResumeStep(s, t);
    assert CallsKept(s, r) by {
      forall x | x in r.calls ensures CallFrame(s, r, x) { assert CallInv(s, x); }
    }
    assert TasksKept(s, r) by {
      forall x | x in r.tasks ensures TaskFrame(s, r, x) { assert TaskInv(s, x); }
    }
    assert ObjectsKept(s, r) by {
      forall x | x in r.objects ensures ObjectFrame(s, r, x) { assert ObjectInv(s, x); }
    }
    Rebuild(s, r);
  }

  lemma InvokeInv(s: State, c: CallId, o: ObjectId, frame: seq<nat>)
    requires Inv(s) && Enabled(s, Invoke(c, o, frame))
    ensures Inv(InvokeStep(s, c, o, frame))
  {
    OneCallInv(s, InvokeStep(s, c, o, frame), c);
  }

  lemma RegisterInv(s: State, c: CallId)
    requires Inv(s) && Enabled(s, Register(c))
    ensures Inv(RegisterStep(s, c))
  {
    assert CallInv(s, c);
    OneCallInv(s, RegisterStep(s, c), c);
  }

  lemma MarkRunningInv(s: State, c: CallId)
    requires Inv(s) && Enabled(s, MarkRunning(c))
    ensures Inv(MarkRunningStep(s, c))
  {
    assert CallInv(s, c);
    OneCallInv(s, MarkRunningStep(s, c), c);
  }

  lemma RemoveInv(s: State, c: CallId)
    requires Inv(s) && Enabled(s, Unregister(c)) && c in s.inflight
    ensures Inv(Remove(s, c))
  {
    assert CallInv(s, c);
    OneCallInv(s, Remove(s, c), c);
  }

  lemma UnheardInv(s: State, c: CallId)
    requires Inv(s) && Enabled(s, Unregister(c)) && c !in s.inflight
    ensures Inv(Move(s, c, Unheard(s.place[c].task, s.place[c].reply)))
  {
    assert CallInv(s, c);
    OneCallInv(s, Move(s, c, Unheard(s.place[c].task, s.place[c].reply)), c);
  }

  lemma UnregisterInv(s: State, c: CallId)
    requires Inv(s) && Enabled(s, Unregister(c))
    ensures Inv(UnregisterStep(s, c))
  {
    hide Inv, Move, Remove;
    if c in s.inflight { RemoveInv(s, c); } else { UnheardInv(s, c); }
  }

  lemma WithdrawInv(s: State, c: CallId)
    requires Inv(s) && Enabled(s, Withdraw(c))
    ensures Inv(WithdrawStep(s, c))
  {
    assert CallInv(s, c);
    OneCallInv(s, WithdrawStep(s, c), c);
  }

  lemma LetGoInv(s: State, c: CallId)
    requires Inv(s) && Enabled(s, Rollback(c)) && c in s.place && !s.place[c].Serving?
    ensures Inv(LetGo(s, c))
  {
    assert CallInv(s, c);
    OneCallInv(s, LetGo(s, c), c);
  }

  /** A call taken back from a task that could not be woken keeps the invariant, whatever the task did meanwhile. */
  lemma RollbackInv(s: State, c: CallId)
    requires Inv(s) && Enabled(s, Rollback(c))
    ensures Inv(RollbackStep(s, c))
  {
    assert CallInv(s, c);
    var t := s.waking[c].task;
    hide LetGo, TakeBack;
    if t in s.tasks && s.tasks[t].active == Some(c) {
      assert TaskInv(s, t);
      TakeBackInv(s, c, t);
    } else {
      LetGoInv(s, c);
    }
  }

  lemma ObjectStepInv(s: State, o: ObjectId, kind: WaitKind, usrIp: nat)
    requires Inv(s)
    ensures if o in s.objects then Inv(CloseStep(s, o)) else Inv(NewObjectStep(s, o, kind, usrIp))
  {
    hide Inv;
    OneObjectInv(s, if o in s.objects then CloseStep(s, o) else NewObjectStep(s, o, kind, usrIp), o);
  }

  lemma StepInv(s: State, step: Step)
    requires Inv(s) && Enabled(s, step)
    ensures Inv(Apply(s, step))
  {
    hide Inv;
    hide NewTaskStep, NewObjectStep, CloseStep, InvokeStep, EnterStep, RegisterStep, ActivateStep, MarkRunningStep;
    hide WithdrawStep, RollbackStep, BeginStep, ParkStep, ResumeStep, RespondStep, DropStep, UnregisterStep, PublishStep;
    match step
    case NewTask(t) => NewTaskInv(s, t);
    case NewObject(o, kind, usrIp) => ObjectStepInv(s, o, kind, usrIp);
    case Close(o) => ObjectStepInv(s, o, Object, 0);
    case Invoke(c, o, frame) => InvokeInv(s, c, o, frame);
    case Enter(c) => EnterInv(s, c);
    case Register(c) => RegisterInv(s, c);
    case Activate(c) => ActivateInv(s, c);
    case MarkRunning(c) => MarkRunningInv(s, c);
    case Withdraw(c) => WithdrawInv(s, c);
    case Rollback(c) => RollbackInv(s, c);
    case Begin(t, o) => BeginInv(s, t, o);
    case Park(t) => ParkInv(s, t);
    case Resume(t) => ResumeInv(s, t);
    case Respond(t, reply) => LeaveInv(s, t, reply);
    case Drop(t) => LeaveInv(s, t, Cancelled(ServiceFaulted));
    case Unregister(c) => UnregisterInv(s, c);
    case Publish(c) => PublishHolds(s, c);
  }

  lemma PublishHolds(s: State, c: CallId)
    requires Inv(s) && Enabled(s, Publish(c))
    ensures Inv(PublishStep(s, c))
  {
    assert CallInv(s, c);
    PublishInv(s, c);
  }

  // ---- runs

  ghost predicate Run(states: seq<State>, steps: seq<Step>) {
    && |states| == |steps| + 1 && states[0] == INITIAL
    && forall i | 0 <= i < |steps| :: Enabled(states[i], steps[i]) && states[i + 1] == Apply(states[i], steps[i])
  }

  lemma RunStep(states: seq<State>, steps: seq<Step>, i: nat)
    requires Run(states, steps) && i < |steps|
    ensures Enabled(states[i], steps[i]) && states[i + 1] == Apply(states[i], steps[i])
  {
    hide Enabled, Apply;
  }

  /** Every state of every interleaving satisfies the invariant. */
  lemma {:induction false} RunKeepsInv(states: seq<State>, steps: seq<Step>, k: nat)
    requires Run(states, steps) && k < |states|
    ensures Inv(states[k])
  {
    if k > 0 {
      hide Enabled, Apply, Inv;
      RunKeepsInv(states, steps, k - 1);
      RunStep(states, steps, k - 1);
      StepInv(states[k - 1], steps[k - 1]);
    }
  }

  // ---- where a call is

  predicate PendingAt(s: State, c: CallId, o: ObjectId) {
    o in s.objects && c in s.objects[o].pending
  }

  predicate ServedBy(s: State, c: CallId, t: TaskId) {
    t in s.tasks && s.tasks[t].active == Some(c)
  }

  /** A thread is between two locked sections with the call in hand, or refused it at a closed object. */
  predicate InHand(s: State, c: CallId) {
    c in s.place && (s.place[c].Entering? || s.place[c].Delivering? || s.place[c].Finishing? || s.place[c].Refused?)
  }

  predicate Answered(s: State, c: CallId) {
    c in s.calls && s.calls[c].reply.Some?
  }

  /** The call was taken back from its task, before or after the task answered it, and no one holds it. */
  predicate Unanswered(s: State, c: CallId) {
    c in s.place && (s.place[c].Withdrawn? || s.place[c].Unheard?)
  }

  /** Each call is in exactly one place, and a place names exactly one queue or one task. */
  lemma ExactlyOnePlace(s: State, c: CallId)
    requires Inv(s) && c in s.calls
    ensures InHand(s, c) || Answered(s, c) || Unanswered(s, c)
            || (exists o :: PendingAt(s, c, o)) || (exists t :: ServedBy(s, c, t))
    ensures !(InHand(s, c) && Answered(s, c)) && !(InHand(s, c) && Unanswered(s, c))
    ensures !(Answered(s, c) && Unanswered(s, c))
    ensures forall o :: PendingAt(s, c, o) ==>
              !InHand(s, c) && !Answered(s, c) && !Unanswered(s, c) && c !in s.inflight
    ensures forall t :: ServedBy(s, c, t) ==>
              !InHand(s, c) && !Answered(s, c) && !Unanswered(s, c) && (c in s.inflight <==> c !in s.unwoken)
    ensures forall o, t :: !(PendingAt(s, c, o) && ServedBy(s, c, t))
    ensures forall o, p :: PendingAt(s, c, o) && PendingAt(s, c, p) ==> o == p
    ensures forall t, u :: ServedBy(s, c, t) && ServedBy(s, c, u) ==> t == u
    ensures forall o | PendingAt(s, c, o) :: NoDup(s.objects[o].pending)
    ensures Answered(s, c) || Unanswered(s, c) ==> c !in s.inflight
  {
    assert CallInv(s, c);
    forall o | PendingAt(s, c, o) ensures s.place[c] == Queued(o) && NoDup(s.objects[o].pending) { assert ObjectInv(s, o); }
    forall t | ServedBy(s, c, t) ensures s.place[c] == Serving(t) { assert TaskInv(s, t); }
    if s.place[c].Queued? { assert PendingAt(s, c, s.place[c].obj); }
    if s.place[c].Serving? { assert ServedBy(s, c, s.place[c].task); }
  }

  /** No thread is in the middle of delivering, taking back or finishing a call. */
  ghost predicate Settled(s: State) {
    forall c | c in s.place :: !s.place[c].Delivering? && !s.place[c].Finishing? && (c in s.waking ==> !s.waking[c].failed)
  }

  /** Between operations the in-flight table and the tasks' active calls are in bijection. */
  lemma InflightBijection(s: State)
    requires Inv(s) && Settled(s)
    ensures forall c :: c in s.inflight <==> exists t :: ServedBy(s, c, t)
    ensures forall c, t, u :: ServedBy(s, c, t) && ServedBy(s, c, u) ==> t == u
  {
    forall c ensures c in s.inflight <==> exists t :: ServedBy(s, c, t) {
      if c in s.inflight {
        assert CallInv(s, c);
        assert ServedBy(s, c, s.place[c].task);
      }
      forall t | ServedBy(s, c, t) ensures c in s.inflight {
        assert TaskInv(s, t);
        assert CallInv(s, c);
      }
    }
    forall c, t, u | ServedBy(s, c, t) && ServedBy(s, c, u) ensures t == u {
      assert TaskInv(s, t) && TaskInv(s, u);
    }
  }

  /**
   Activation is never refused, a call being finished is still registered unless its task could not be woken, and
   only then does a call end without an answer.
   */
  lemma NeverLost(s: State, c: CallId)
    requires Inv(s) && c in s.calls
    ensures c in s.place && s.place[c] != Lost
    ensures s.place[c].Delivering? ==> Accepts(s, s.place[c].task)
    ensures s.place[c].Finishing? && !s.place[c].removed ==> (c in s.inflight <==> c !in s.unwoken)
    ensures Unanswered(s, c) ==> c in s.unwoken && s.calls[c].reply == None && c !in s.inflight
  {
    assert CallInv(s, c);
    if s.place[c].Delivering? { DeliveryAccepted(s, c); }
  }

  // ---- who answers

  /** A published reply is the answer of the one task to which this very request was delivered. */
  lemma ReplyFromServer(s: State, c: CallId)
    requires Inv(s) && Answered(s, c)
    ensures exists t, what: Delivery ::
              what.frame == s.calls[c].frame
              && Past(s.history, c) == [Delivered(t, what), Answer(t, s.calls[c].reply.value),
                                        Published(s.calls[c].reply.value)]
  {
    assert CallInv(s, c);
    var h := Past(s.history, c);
    var t, what, r := s.place[c].task, h[0].what, s.calls[c].reply.value;
    assert h == [Delivered(t, what), Answer(t, r), Published(r)];
  }

  /** Every record in m is a prefix of the record in n. */
  ghost predicate Grows<K(!new), V>(m: map<K, seq<V>>, n: map<K, seq<V>>) {
    forall k :: Past(m, k) <= Past(n, k)
  }

  lemma GrowsByOne<K(!new), V>(m: map<K, seq<V>>, k: K, v: V)
    ensures Grows(m, m) && Grows(m, m[k := Past(m, k) + [v]])
  {
  }

  ghost predicate CallsFinal(m: map<CallId, Call>, n: map<CallId, Call>) {
    forall c | c in m ::
      && c in n && n[c].frame == m[c].frame
      && (m[c].reply.Some? ==> n[c].reply == m[c].reply)
  }

  /** The past is never rewritten: replies and requests are final, and every record only grows at its end. */
  ghost predicate Extends(s: State, r: State) {
    && CallsFinal(s.calls, r.calls) && Grows(s.history, r.history)
    && Grows(s.submitted, r.submitted) && Grows(s.handed, r.handed)
  }

  lemma HistoryGrows(s: State, c: CallId, e: Event, o: ObjectId, d: CallId)
    ensures Grows(s.history, s.history) && Grows(s.submitted, s.submitted) && Grows(s.handed, s.handed)
    ensures Grows(s.history, Note(s, c, e).history)
    ensures Grows(s.submitted, s.submitted[o := Past(s.submitted, o) + [d]])
    ensures Grows(s.handed, s.handed[o := Past(s.handed, o) + [d]])
    ensures CallsFinal(s.calls, s.calls)
  {
    GrowsByOne(s.history, c, e);
    GrowsByOne(s.submitted, o, d);
    GrowsByOne(s.handed, o, d);
  }

  /** A section that records nothing. */
  lemma QuietExtends(s: State, r: State)
    requires r.history == s.history && r.submitted == s.submitted && r.handed == s.handed && CallsFinal(s.calls, r.calls)
    ensures Extends(s, r)
  {
  }

  lemma EntryExtends(s: State, c: CallId, o: ObjectId)
    requires o in s.objects
    ensures Extends(s, Move(s, c, Refused)) && Extends(s, QueueCall(s, c, o))
    ensures s.objects[o].waiters != [] ==> Extends(s, MatchWaiter(s, c, o))
  {
    hide Grows, CallsFinal;
    HistoryGrows(s, c, Published(Cancelled(InvalidState)), o, c);
  }

  lemma EnterExtends(s: State, c: CallId)
    requires Enabled(s, Enter(c))
    ensures Extends(s, EnterStep(s, c))
  {
    hide Extends, Move, QueueCall, MatchWaiter;
    EntryExtends(s, c, s.place[c].obj);
  }

  lemma MatchCallExtends(s: State, t: TaskId, o: ObjectId)
    requires o in s.objects && s.objects[o].pending != []
    ensures Extends(s, MatchCall(s, t, o))
  {
    hide Grows, CallsFinal;
    HistoryGrows(s, 0, Published(Cancelled(InvalidState)), o, s.objects[o].pending[0]);
  }

  lemma CounterExtends(s: State, t: TaskId, o: ObjectId)
    requires t in s.tasks && o in s.objects
    ensures Extends(s, AbortWait(s, t, s.objects[o].kind)) && Extends(s, ParkTask(s, t, o))
    ensures s.objects[o].pending != [] ==> Extends(s, MatchCall(s, t, o))
  {
    hide Extends;
    SilentExtends(s, AbortWait(s, t, s.objects[o].kind));
    SilentExtends(s, ParkTask(s, t, o));
    if s.objects[o].pending != [] { MatchCallExtends(s, t, o); }
  }

  lemma ParkExtends(s: State, t: TaskId)
    requires Enabled(s, Park(t))
    ensures Extends(s, ParkStep(s, t))
  {
    hide Extends, AbortWait, ParkTask, MatchCall;
    CounterExtends(s, t, s.doing[t].obj);
  }

  lemma ArmExtends(s: State, c: CallId, t: TaskId, what: Delivery, told: bool)
    requires t in s.tasks
    ensures Extends(s, Arm(s, c, t, what, told))
  {
    hide Grows, CallsFinal;
    HistoryGrows(s, c, Delivered(t, what), 0, c);
  }

  lemma ActivateExtends(s: State, c: CallId)
    requires Enabled(s, Activate(c))
    ensures Extends(s, ActivateStep(s, c))
  {
    hide Extends;
    var Delivering(t, o, _, byInvoker) := s.place[c];
    SilentExtends(s, Reject(s, c, o, byInvoker));
    hide Arm, Reject;
    if t in s.tasks { ArmExtends(s, c, t, Delivery(s.objects[o].usrIp, s.calls[c].frame), byInvoker); }
  }

  lemma FinishExtends(s: State, t: TaskId, c: CallId, reply: Reply)
    ensures Extends(s, Finish(Without(s, t), t, c, reply))
    ensures t in s.tasks ==> Extends(s, TakeActive(s, t, c, reply))
  {
    hide Grows, CallsFinal;
    HistoryGrows(s, c, Answer(t, reply), 0, 0);
  }

  lemma RespondExtends(s: State, t: TaskId, reply: Reply)
    requires Enabled(s, Respond(t, reply))
    ensures Extends(s, RespondStep(s, t, reply))
  {
    hide Extends;
    if s.tasks[t].active.Some? {
      FinishExtends(s, t, s.tasks[t].active.value, reply);
    } else {
      SilentExtends(s, s);
    }
  }

  lemma DropExtends(s: State, t: TaskId)
    requires Enabled(s, Drop(t))
    ensures Extends(s, DropStep(s, t))
  {
    hide Extends;
    if s.tasks[t].active.Some? {
      FinishExtends(s, t, s.tasks[t].active.value, Cancelled(ServiceFaulted));
    } else {
      SilentExtends(s, Without(s, t));
    }
  }

  lemma PublishExtends(s: State, c: CallId)
    requires Enabled(s, Publish(c)) && CallInv(s, c)
    ensures Extends(s, PublishStep(s, c))
  {
    hide Grows;
    HistoryGrows(s, c, Published(s.place[c].reply), 0, c);
  }

  /** A section that neither records anything nor touches a call. */
  lemma SilentExtends(s: State, r: State)
    requires r.calls == s.calls && r.history == s.history && r.submitted == s.submitted && r.handed == s.handed
    ensures Extends(s, r)
  {
  }

  lemma RegisterExtends(s: State, c: CallId)
    requires Enabled(s, Register(c))
    ensures Extends(s, RegisterStep(s, c))
  {
    hide Extends;
    SilentExtends(s, RegisterStep(s, c));
  }

  lemma UnregisterExtends(s: State, c: CallId)
    requires Enabled(s, Unregister(c))
    ensures Extends(s, UnregisterStep(s, c))
  {
    hide Extends;
    SilentExtends(s, Remove(s, c));
    SilentExtends(s, Move(s, c, Unheard(s.place[c].task, s.place[c].reply)));
    hide Move, Remove;
  }

  lemma WithdrawExtends(s: State, c: CallId)
    requires Enabled(s, Withdraw(c))
    ensures Extends(s, WithdrawStep(s, c))
  {
    hide Extends;
    SilentExtends(s, WithdrawStep(s, c));
  }

  lemma RollbackExtends(s: State, c: CallId)
    requires Enabled(s, Rollback(c))
    ensures Extends(s, RollbackStep(s, c))
  {
    hide Extends;
    SilentExtends(s, LetGo(s, c));
    SilentExtends(s, TakeBack(s, c, s.waking[c].task));
    hide LetGo, TakeBack;
  }

  lemma QuietCallExtends(s: State, c: CallId, o: ObjectId, frame: seq<nat>)
    ensures c !in s.calls ==> Extends(s, InvokeStep(s, c, o, frame))
    ensures c in s.calls ==> Extends(s, MarkRunningStep(s, c))
  {
    hide Extends;
    if c !in s.calls { QuietExtends(s, InvokeStep(s, c, o, frame)); }
    else { QuietExtends(s, MarkRunningStep(s, c)); }
  }

  lemma TaskExtends(s: State, t: TaskId)
    ensures Extends(s, NewTaskStep(s, t))
    ensures t in s.tasks ==> Extends(s, ResumeStep(s, t))
  {
    hide Extends;
    SilentExtends(s, NewTaskStep(s, t));
    if t in s.tasks { SilentExtends(s, ResumeStep(s, t)); }
  }

  lemma BeginExtends(s: State, t: TaskId, o: ObjectId)
    requires Enabled(s, Begin(t, o))
    ensures Extends(s, BeginStep(s, t, o))
  {
    hide Extends;
    SilentExtends(s, s);
    SilentExtends(s, BeginWait(s, t, o));
    hide BeginWait;
  }

  lemma ObjectExtends(s: State, o: ObjectId, kind: WaitKind, usrIp: nat)
    ensures Extends(s, NewObjectStep(s, o, kind, usrIp))
    ensures o in s.objects ==> Extends(s, CloseStep(s, o))
  {
    hide Extends;
    SilentExtends(s, NewObjectStep(s, o, kind, usrIp));
    if o in s.objects { SilentExtends(s, CloseStep(s, o)); }
  }

  lemma StepExtends(s: State, step: Step)
    requires Inv(s) && Enabled(s, step)
    ensures Extends(s, Apply(s, step))
  {
    if step.Publish? { assert CallInv(s, step.call); }
    hide Inv, Extends;
    hide NewTaskStep, NewObjectStep, CloseStep, InvokeStep, EnterStep, RegisterStep, ActivateStep, MarkRunningStep;
    hide WithdrawStep, RollbackStep, BeginStep, ParkStep, ResumeStep, RespondStep, DropStep, UnregisterStep, PublishStep;
    match step
    case NewTask(t) => TaskExtends(s, t);
    case NewObject(o, kind, usrIp) => ObjectExtends(s, o, kind, usrIp);
    case Close(o) => ObjectExtends(s, o, Object, 0);
    case Invoke(c, o, frame) => QuietCallExtends(s, c, o, frame);
    case Enter(c) => EnterExtends(s, c);
    case Register(c) => RegisterExtends(s, c);
    case Activate(c) => ActivateExtends(s, c);
    case MarkRunning(c) => QuietCallExtends(s, c, 0, []);
    case Withdraw(c) => WithdrawExtends(s, c);
    case Rollback(c) => RollbackExtends(s, c);
    case Begin(t, o) => BeginExtends(s, t, o);
    case Park(t) => ParkExtends(s, t);
    case Resume(t) => TaskExtends(s, t);
    case Respond(t, reply) => RespondExtends(s, t, reply);
    case Drop(t) => DropExtends(s, t);
    case Unregister(c) => UnregisterExtends(s, c);
    case Publish(c) => PublishExtends(s, c);
  }

  lemma ReplyStays(s: State, r: State, c: CallId)
    requires Extends(s, r) && Answered(s, c)
    ensures Answered(r, c) && r.calls[c].reply == s.calls[c].reply
  {
  }

  lemma {:induction false} RunReplyIsFinal(states: seq<State>, steps: seq<Step>, i: nat, j: nat, c: CallId)
    requires Run(states, steps) && i <= j < |states| && Answered(states[i], c)
    ensures Answered(states[j], c) && states[j].calls[c].reply == states[i].calls[c].reply
    decreases j
  {
    hide Inv, Apply, Enabled, Extends;
    if i < j {
      RunReplyIsFinal(states, steps, i, j - 1, c);
      RunKeepsInv(states, steps, j - 1);
      RunStep(states, steps, j - 1);
      StepExtends(states[j - 1], steps[j - 1]);
      ReplyStays(states[j - 1], states[j], c);
    }
  }

  /** The two sections that end a call: its reply is published, unless the call was withdrawn. */
  ghost predicate Ends(s: State, s1: State, c: CallId, reply: Reply) {
    && c in s.calls && Enabled(s1, Unregister(c))
    && var s2 := Apply(s1, Unregister(c));
       if c in s.unwoken then s2.calls == s.calls && Unanswered(s2, c)
       else
         && Enabled(s2, Publish(c))
         && Apply(s2, Publish(c)).calls == s.calls[c := s.calls[c].(reply := Some(reply),
                                                 state := if reply.Answered? then Replied else Cancelled')]
  }

  lemma FinishingEnds(s: State, s1: State, t: TaskId, c: CallId, reply: Reply)
    requires c in s.calls && s1.calls == s.calls && c in s1.place && s1.place[c] == Finishing(t, reply, false)
    requires c in s1.inflight <==> c !in s.unwoken
    ensures Ends(s, s1, c, reply)
  {
    if c in s.unwoken {
      assert UnregisterStep(s1, c) == Move(s1, c, Unheard(t, reply));
    } else {
      var s2 := Remove(s1, c);
      assert UnregisterStep(s1, c) == s2;
      assert s2.place[c] == Finishing(t, reply, true);
    }
  }

  lemma ServedCall(s: State, t: TaskId, c: CallId)
    requires Inv(s) && ServedBy(s, c, t)
    ensures c in s.calls && (c in s.inflight <==> c !in s.unwoken)
  {
    assert TaskInv(s, t);
    assert CallInv(s, c);
  }

  /** A serving task that answers: two more sections publish exactly that answer to exactly its call. */
  lemma AnswerReachesCall(s: State, t: TaskId, c: CallId, reply: Reply)
    requires Inv(s) && ServedBy(s, c, t) && Enabled(s, Respond(t, reply))
    ensures Ends(s, Apply(s, Respond(t, reply)), c, reply)
  {
    hide Ends, Inv;
    ServedCall(s, t, c);
    FinishingEnds(s, TakeActive(s, t, c, reply), t, c, reply);
  }

  /** A serving task that is dropped: its call is cancelled with `ServiceFaulted`. */
  lemma DroppedServerCancels(s: State, t: TaskId, c: CallId)
    requires Inv(s) && ServedBy(s, c, t) && Enabled(s, Drop(t))
    ensures t !in Apply(s, Drop(t)).tasks && Ends(s, Apply(s, Drop(t)), c, Cancelled(ServiceFaulted))
  {
    hide Ends, Inv;
    ServedCall(s, t, c);
    FinishingEnds(s, Finish(Without(s, t), t, c, Cancelled(ServiceFaulted)), t, c, Cancelled(ServiceFaulted));
  }

  // ---- queues

  /** A task is parked in at most one queue, once, and only while it is marked as waiting. */
  lemma ParkedOnce(s: State, t: TaskId, o: ObjectId, p: ObjectId)
    requires Inv(s) && o in s.objects && p in s.objects && t in s.objects[o].waiters && t in s.objects[p].waiters
    ensures o == p && NoDup(s.objects[o].waiters) && t in s.tasks && s.tasks[t].waiting && s.tasks[t].active == None
  {
    assert ObjectInv(s, o) && ObjectInv(s, p);
    assert TaskInv(s, t);
  }

  /** No object holds both waiters and calls, and calls leave the queue in the order they were submitted. */
  lemma FirstComeFirstServed(s: State, o: ObjectId)
    requires Inv(s) && o in s.objects
    ensures s.objects[o].waiters == [] || s.objects[o].pending == []
    ensures Past(s.submitted, o) == Past(s.handed, o) + s.objects[o].pending
  {
    assert ObjectInv(s, o);
  }
}
