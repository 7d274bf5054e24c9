/**
 What the records of a call say of its past (kernel/src/service/dispatcher.rs): who hears that its task could not be
 woken, that it is never taken back once it is marked as running, and when its lifecycle state can be trusted.
 */
module ServiceLifecycle {
  import opened Prelude
  import opened ServiceProtocol
  import opened ServiceInvariant
  import opened ServiceRuns
  import opened ServiceLosses

  // ---- The one call a section is about

  function Subject(s: State, step: Step): Option<CallId> {
    match step
    case Invoke(c, _, _) => Some(c)
    case Enter(c) => Some(c)
    case Register(c) => Some(c)
    case Activate(c) => Some(c)
    case MarkRunning(c) => Some(c)
    case Withdraw(c) => Some(c)
    case Rollback(c) => Some(c)
    case Unregister(c) => Some(c)
    case Publish(c) => Some(c)
    case Park(t) => if t in s.doing && s.doing[t].Begun? then First(s, s.doing[t].obj) else None
    case Respond(t, _) => if t in s.tasks then s.tasks[t].active else None
    case Drop(t) => if t in s.tasks then s.tasks[t].active else None
    case _ => None
  }

  function First(s: State, o: ObjectId): Option<CallId> {
    if o in s.objects && s.objects[o].pending != [] then Some(s.objects[o].pending[0]) else None
  }

  /** The two maps agree at one key. */
  predicate Agree<K, V(==)>(m: map<K, V>, n: map<K, V>, k: K) {
    (k in n <==> k in m) && (k in m ==> n[k] == m[k])
  }

  /** Nothing that is kept of the call has changed. */
  predicate Untouched(s: State, r: State, c: CallId) {
    && Agree(s.place, r.place, c) && Agree(s.calls, r.calls, c)
    && Agree(s.waking, r.waking, c) && Agree(s.unwoken, r.unwoken, c)
  }

  lemma MoveElsewhere(s: State, d: CallId, p: Place, c: CallId)
    requires d != c
    ensures Untouched(s, Move(s, d, p), c)
  {
  }

  lemma QueueElsewhere(s: State, d: CallId, o: ObjectId, c: CallId)
    requires o in s.objects && d != c
    ensures Untouched(s, QueueCall(s, d, o), c)
  {
  }

  lemma MatchElsewhere(s: State, d: CallId, o: ObjectId, c: CallId)
    requires o in s.objects && s.objects[o].waiters != [] && d != c
    ensures Untouched(s, MatchWaiter(s, d, o), c)
  {
  }

  lemma EnterElsewhere(s: State, d: CallId, c: CallId)
    requires Enabled(s, Enter(d)) && d != c
    ensures Untouched(s, EnterStep(s, d), c)
  {
    hide Untouched, Move, QueueCall, MatchWaiter;
    var o := s.place[d].obj;
    MoveElsewhere(s, d, Refused, c);
    QueueElsewhere(s, d, o, c);
    if s.objects[o].waiters != [] { MatchElsewhere(s, d, o, c); }
  }

  lemma WaitElsewhere(s: State, t: TaskId, o: ObjectId, c: CallId)
    requires o in s.objects && t in s.tasks
    ensures Untouched(s, ParkTask(s, t, o), c) && Untouched(s, BeginWait(s, t, o), c)
    ensures Untouched(s, AbortWait(s, t, s.objects[o].kind), c)
  {
  }

  lemma PopElsewhere(s: State, t: TaskId, o: ObjectId, c: CallId)
    requires o in s.objects && s.objects[o].pending != [] && s.objects[o].pending[0] != c
    ensures Untouched(s, MatchCall(s, t, o), c)
  {
  }

  lemma ParkElsewhere(s: State, t: TaskId, c: CallId)
    requires Enabled(s, Park(t)) && First(s, s.doing[t].obj) != Some(c)
    ensures Untouched(s, ParkStep(s, t), c)
  {
    hide Untouched, ParkTask, BeginWait, AbortWait, MatchCall;
    var o := s.doing[t].obj;
    WaitElsewhere(s, t, o, c);
    if s.objects[o].pending != [] { PopElsewhere(s, t, o, c); }
  }

  lemma BeginElsewhere(s: State, t: TaskId, o: ObjectId, c: CallId)
    requires Enabled(s, Begin(t, o))
    ensures Untouched(s, BeginStep(s, t, o), c)
  {
    hide BeginWait, ParkTask, AbortWait;
    WaitElsewhere(s, t, o, c);
  }

  lemma RegisterElsewhere(s: State, d: CallId, c: CallId)
    requires Enabled(s, Register(d)) && d != c
    ensures Untouched(s, RegisterStep(s, d), c)
  {
  }

  lemma ArmElsewhere(s: State, d: CallId, t: TaskId, what: Delivery, told: bool, c: CallId)
    requires t in s.tasks && d != c
    ensures Untouched(s, Arm(s, d, t, what, told), c)
  {
  }

  lemma RejectElsewhere(s: State, d: CallId, o: ObjectId, told: bool, c: CallId)
    requires d != c
    ensures Untouched(s, Reject(s, d, o, told), c)
  {
  }

  lemma ActivateElsewhere(s: State, d: CallId, c: CallId)
    requires Enabled(s, Activate(d)) && d != c
    ensures Untouched(s, ActivateStep(s, d), c)
  {
    hide Untouched, Arm, Reject;
    var Delivering(t, o, _, told) := s.place[d];
    RejectElsewhere(s, d, o, told, c);
    if t in s.tasks { ArmElsewhere(s, d, t, Delivery(s.objects[o].usrIp, s.calls[d].frame), told, c); }
  }

  lemma MarkElsewhere(s: State, d: CallId, c: CallId)
    requires d in s.calls && d != c
    ensures Untouched(s, MarkRunningStep(s, d), c)
  {
  }

  lemma WithdrawElsewhere(s: State, d: CallId, c: CallId)
    requires d in s.waking && d != c
    ensures Untouched(s, WithdrawStep(s, d), c)
  {
  }

  lemma LetGoElsewhere(s: State, d: CallId, c: CallId)
    requires d != c
    ensures Untouched(s, LetGo(s, d), c)
  {
  }

  lemma BackElsewhere(s: State, d: CallId, t: TaskId, c: CallId)
    requires d != c
    ensures Untouched(s, TakeBack(s, d, t), c)
  {
  }

  lemma RollbackElsewhere(s: State, d: CallId, c: CallId)
    requires Enabled(s, Rollback(d)) && d != c
    ensures Untouched(s, RollbackStep(s, d), c)
  {
    hide Untouched, LetGo, TakeBack;
    LetGoElsewhere(s, d, c);
    BackElsewhere(s, d, s.waking[d].task, c);
  }

  lemma FinishElsewhere(s: State, t: TaskId, d: CallId, reply: Reply, c: CallId)
    ensures d != c ==> Untouched(s, Finish(Without(s, t), t, d, reply), c)
    ensures d != c && t in s.tasks ==> Untouched(s, TakeActive(s, t, d, reply), c)
    ensures Untouched(s, Without(s, t), c)
  {
  }

  lemma RespondElsewhere(s: State, t: TaskId, reply: Reply, c: CallId)
    requires Enabled(s, Respond(t, reply)) && s.tasks[t].active != Some(c)
    ensures Untouched(s, RespondStep(s, t, reply), c)
  {
    hide Finish, TakeActive, Without;
    if s.tasks[t].active.Some? { FinishElsewhere(s, t, s.tasks[t].active.value, reply, c); }
  }

  lemma DropElsewhere(s: State, t: TaskId, c: CallId)
    requires Enabled(s, Drop(t)) && s.tasks[t].active != Some(c)
    ensures Untouched(s, DropStep(s, t), c)
  {
    hide Untouched, Finish, TakeActive, Without;
    var active := s.tasks[t].active;
    FinishElsewhere(s, t, if active.Some? then active.value else c, Cancelled(ServiceFaulted), c);
  }

  lemma PublishElsewhere(s: State, d: CallId, c: CallId)
    requires Enabled(s, Publish(d)) && d != c
    ensures Untouched(s, PublishStep(s, d), c)
  {
  }

  lemma RemoveElsewhere(s: State, d: CallId, c: CallId)
    requires d in s.place && s.place[d].Finishing? && d != c
    ensures Untouched(s, Remove(s, d), c)
  {
  }

  lemma UnregisterElsewhere(s: State, d: CallId, c: CallId)
    requires Enabled(s, Unregister(d)) && d != c
    ensures Untouched(s, UnregisterStep(s, d), c)
  {
    hide Untouched, Move, Remove;
    MoveElsewhere(s, d, Unheard(s.place[d].task, s.place[d].reply), c);
    RemoveElsewhere(s, d, c);
  }

  lemma TaskElsewhere(s: State, t: TaskId, c: CallId)
    ensures Untouched(s, NewTaskStep(s, t), c)
    ensures t in s.tasks ==> Untouched(s, ResumeStep(s, t), c)
  {
  }

  lemma ObjectElsewhere(s: State, o: ObjectId, kind: WaitKind, usrIp: nat, c: CallId)
    ensures Untouched(s, NewObjectStep(s, o, kind, usrIp), c)
    ensures o in s.objects ==> Untouched(s, CloseStep(s, o), c)
  {
  }

  lemma InvokeElsewhere(s: State, d: CallId, o: ObjectId, frame: seq<nat>, c: CallId)
    requires d != c
    ensures Untouched(s, InvokeStep(s, d, o, frame), c)
  {
  }

  /** A section leaves every call alone but the one it is about. */
  lemma StepElsewhere(s: State, step: Step, c: CallId)
    requires Enabled(s, step) && Subject(s, step) != Some(c)
    ensures Untouched(s, Apply(s, step), c)
  {
    hide Untouched, First;
    hide NewTaskStep, NewObjectStep, CloseStep, InvokeStep, EnterStep, RegisterStep, ActivateStep, MarkRunningStep;
    hide WithdrawStep, RollbackStep, BeginStep, ParkStep, ResumeStep, RespondStep, DropStep, UnregisterStep, PublishStep;
    match step
    case NewTask(t) => TaskElsewhere(s, t, c);
    case NewObject(o, kind, usrIp) => ObjectElsewhere(s, o, kind, usrIp, c);
    case Close(o) => ObjectElsewhere(s, o, Object, 0, c);
    case Invoke(d, o, frame) => InvokeElsewhere(s, d, o, frame, c);
    case Enter(d) => EnterElsewhere(s, d, c);
    case Register(d) => RegisterElsewhere(s, d, c);
    case Activate(d) => ActivateElsewhere(s, d, c);
    case MarkRunning(d) => MarkElsewhere(s, d, c);
    case Withdraw(d) => WithdrawElsewhere(s, d, c);
    case Rollback(d) => RollbackElsewhere(s, d, c);
    case Begin(t, o) => BeginElsewhere(s, t, o, c);
    case Park(t) => ParkElsewhere(s, t, c);
    case Resume(t) => TaskElsewhere(s, t, c);
    case Respond(t, reply) => RespondElsewhere(s, t, reply, c);
    case Drop(t) => DropElsewhere(s, t, c);
    case Unregister(d) => UnregisterElsewhere(s, d, c);
    case Publish(d) => PublishElsewhere(s, d, c);
  }

  // ---- Who hears that a task could not be woken

  /** Where a call can be, by whether it has been queued and whether it has been marked as running. */
  predicate CanBeAt(p: Place, queued: bool, marked: bool) {
    match p
    case Entering(_) => !queued && !marked
    case Queued(_) => queued && !marked
    case Delivering(_, _, _, byInvoker) => byInvoker == !queued && !marked
    case Refused => !queued && !marked
    case Lost => !marked
    case _ => true
  }

  /** Its caller delivers a call that was never queued, and hears of a failure; once marked it is past being taken back. */
  predicate Remembers(s: State, c: CallId, queued: bool, marked: bool) {
    && c in s.place && CanBeAt(s.place[c], queued, marked)
    && (c in s.waking ==> s.waking[c].byInvoker == !queued && !marked)
    && (c in s.unwoken ==> s.unwoken[c] == !queued && !marked)
  }

  predicate InQueue(s: State, c: CallId) {
    c in s.place && s.place[c].Queued?
  }

  lemma EntryRemembers(s: State, c: CallId, o: ObjectId)
    requires Remembers(s, c, false, false) && o in s.objects && c !in s.waking && c !in s.unwoken
    ensures Remembers(Move(s, c, Refused), c, false, false)
    ensures Remembers(QueueCall(s, c, o), c, true, false)
    ensures s.objects[o].waiters != [] ==> Remembers(MatchWaiter(s, c, o), c, false, false)
  {
  }

  lemma EnterRemembers(s: State, c: CallId, queued: bool, marked: bool)
    requires Inv(s) && Remembers(s, c, queued, marked) && Enabled(s, Enter(c))
    ensures var r := EnterStep(s, c); Remembers(r, c, queued || InQueue(r, c), marked)
  {
    NotWaking(s, c);
    hide Inv, QueueCall, MatchWaiter, Move;
    EntryRemembers(s, c, s.place[c].obj);
    EntryQueues(s, c, s.place[c].obj);
  }

  lemma NotWaking(s: State, c: CallId)
    requires Inv(s) && c in s.calls && c in s.place && !s.place[c].Serving? && !s.place[c].Finishing?
    requires !s.place[c].Finished? && !s.place[c].Withdrawn? && !s.place[c].Unheard?
    ensures c !in s.waking && c !in s.unwoken
  {
    assert CallInv(s, c);
  }

  lemma EntryQueues(s: State, c: CallId, o: ObjectId)
    requires o in s.objects
    ensures !InQueue(Move(s, c, Refused), c) && InQueue(QueueCall(s, c, o), c)
    ensures s.objects[o].waiters != [] ==> !InQueue(MatchWaiter(s, c, o), c)
  {
  }

  lemma PopRemembers(s: State, t: TaskId, o: ObjectId, queued: bool, marked: bool)
    requires o in s.objects && s.objects[o].pending != [] && InQueue(s, s.objects[o].pending[0])
    requires var c := s.objects[o].pending[0]; c !in s.waking && c !in s.unwoken && Remembers(s, c, queued, marked)
    ensures Remembers(MatchCall(s, t, o), s.objects[o].pending[0], queued, marked)
  {
  }

  lemma ParkRemembers(s: State, t: TaskId, c: CallId, queued: bool, marked: bool)
    requires Inv(s) && Remembers(s, c, queued, marked) && Enabled(s, Park(t)) && Subject(s, Park(t)) == Some(c)
    ensures Remembers(ParkStep(s, t), c, queued, marked)
  {
    var o := s.doing[t].obj;
    QueuedFirst(s, o);
    NotWaking(s, c);
    hide Inv, AbortWait, MatchCall;
    PopRemembers(s, t, o, queued, marked);
    AbortRemembers(s, t, o, c, queued, marked);
  }

  lemma AbortRemembers(s: State, t: TaskId, o: ObjectId, c: CallId, queued: bool, marked: bool)
    requires Remembers(s, c, queued, marked) && t in s.tasks && o in s.objects
    ensures Remembers(AbortWait(s, t, s.objects[o].kind), c, queued, marked)
  {
  }

  lemma DeliverRemembers(s: State, c: CallId, t: TaskId, o: ObjectId, what: Delivery, queued: bool)
    requires Remembers(s, c, queued, false) && s.place[c].Delivering? && c !in s.waking && c !in s.unwoken
    ensures t in s.tasks ==> Remembers(Arm(s, c, t, what, s.place[c].byInvoker), c, queued, false)
    ensures Remembers(Reject(s, c, o, s.place[c].byInvoker), c, queued, false)
  {
  }

  lemma ActivateRemembers(s: State, c: CallId, queued: bool, marked: bool)
    requires Inv(s) && Remembers(s, c, queued, marked) && Enabled(s, Activate(c))
    ensures Remembers(ActivateStep(s, c), c, queued, marked)
  {
    NotWaking(s, c);
    hide Inv, Arm, Reject;
    var Delivering(t, o, _, told) := s.place[c];
    DeliverRemembers(s, c, t, o, Delivery(s.objects[o].usrIp, s.calls[c].frame), queued);
  }

  /** A thread that is about to mark its call, or to withdraw it, has armed a task with it. */
  lemma WakingFacts(s: State, c: CallId)
    requires Inv(s) && c in s.calls && c in s.waking
    ensures c in s.place && Armed(s.place[c], s.waking[c].task) && (!s.waking[c].failed ==> c !in s.unwoken)
  {
    assert CallInv(s, c);
  }

  lemma MarkRemembers(s: State, c: CallId, queued: bool)
    requires Inv(s) && Remembers(s, c, queued, false) && Enabled(s, MarkRunning(c))
    ensures Remembers(MarkRunningStep(s, c), c, queued, true)
  {
    WakingFacts(s, c);
    hide Inv;
  }

  lemma WithdrawRemembers(s: State, c: CallId, queued: bool)
    requires Inv(s) && Remembers(s, c, queued, false) && Enabled(s, Withdraw(c))
    ensures Remembers(WithdrawStep(s, c), c, queued, false)
  {
    hide Inv;
  }

  lemma LetGoRemembers(s: State, c: CallId, queued: bool, marked: bool)
    requires Remembers(s, c, queued, marked)
    ensures Remembers(LetGo(s, c), c, queued, marked)
  {
  }

  lemma BackRemembers(s: State, c: CallId, t: TaskId, queued: bool, marked: bool)
    requires Remembers(s, c, queued, marked)
    ensures Remembers(TakeBack(s, c, t), c, queued, marked)
  {
  }

  lemma RollbackRemembers(s: State, c: CallId, queued: bool, marked: bool)
    requires Remembers(s, c, queued, marked) && Enabled(s, Rollback(c))
    ensures Remembers(RollbackStep(s, c), c, queued, marked)
  {
    hide Remembers, LetGo, TakeBack;
    LetGoRemembers(s, c, queued, marked);
    BackRemembers(s, c, s.waking[c].task, queued, marked);
  }

  lemma FinishRemembers(s: State, t: TaskId, c: CallId, reply: Reply, queued: bool, marked: bool)
    requires Remembers(s, c, queued, marked)
    ensures t in s.tasks ==> Remembers(TakeActive(s, t, c, reply), c, queued, marked)
    ensures Remembers(Finish(Without(s, t), t, c, reply), c, queued, marked)
  {
  }

  lemma PublishRemembers(s: State, c: CallId, queued: bool, marked: bool)
    requires Remembers(s, c, queued, marked) && Enabled(s, Publish(c))
    ensures Remembers(PublishStep(s, c), c, queued, marked)
  {
  }

  lemma RegisterRemembers(s: State, c: CallId, queued: bool, marked: bool)
    requires Remembers(s, c, queued, marked) && Enabled(s, Register(c))
    ensures Remembers(RegisterStep(s, c), c, queued, marked)
  {
  }

  lemma RemoveRemembers(s: State, c: CallId, queued: bool, marked: bool)
    requires Remembers(s, c, queued, marked) && s.place[c].Finishing?
    ensures Remembers(Remove(s, c), c, queued, marked)
  {
  }

  lemma UnheardRemembers(s: State, c: CallId, t: TaskId, reply: Reply, queued: bool, marked: bool)
    requires Remembers(s, c, queued, marked)
    ensures Remembers(Move(s, c, Unheard(t, reply)), c, queued, marked)
  {
  }

  lemma UnregisterRemembers(s: State, c: CallId, queued: bool, marked: bool)
    requires Remembers(s, c, queued, marked) && Enabled(s, Unregister(c))
    ensures Remembers(UnregisterStep(s, c), c, queued, marked)
  {
    hide Remembers, Remove, Move;
    RemoveRemembers(s, c, queued, marked);
    UnheardRemembers(s, c, s.place[c].task, s.place[c].reply, queued, marked);
  }

  lemma RespondRemembers(s: State, t: TaskId, reply: Reply, c: CallId, queued: bool, marked: bool)
    requires Remembers(s, c, queued, marked) && t in s.tasks && t in s.doing && s.doing[t] == Idle
    requires s.tasks[t].active == Some(c)
    ensures Remembers(RespondStep(s, t, reply), c, queued, marked) && Remembers(DropStep(s, t), c, queued, marked)
  {
    hide Remembers, TakeActive, Finish, Without;
    FinishRemembers(s, t, c, reply, queued, marked);
    FinishRemembers(s, t, c, Cancelled(ServiceFaulted), queued, marked);
  }

  lemma UntouchedRemembers(s: State, r: State, c: CallId, queued: bool, marked: bool)
    requires Remembers(s, c, queued, marked) && Untouched(s, r, c)
    ensures Remembers(r, c, queued || InQueue(r, c), marked)
  {
  }

  lemma NotInQueue(r: State, c: CallId, queued: bool, marked: bool)
    requires Remembers(r, c, queued, marked)
    ensures Remembers(r, c, queued || InQueue(r, c), marked)
  {
  }

  /** A section about the call keeps what its records say. */
  lemma SubjectRemembers(s: State, step: Step, c: CallId, queued: bool, marked: bool)
    requires Inv(s) && Enabled(s, step) && Subject(s, step) == Some(c) && c in s.calls && Remembers(s, c, queued, marked)
    requires step != MarkRunning(c) && step != Enter(c)
    ensures Remembers(Apply(s, step), c, queued, marked)
  {
    if c in s.waking { assert !marked; }
    hide Inv, Remembers, First;
    hide NewTaskStep, NewObjectStep, CloseStep, InvokeStep, EnterStep, RegisterStep, ActivateStep, MarkRunningStep;
    hide WithdrawStep, RollbackStep, BeginStep, ParkStep, ResumeStep, RespondStep, DropStep, UnregisterStep, PublishStep;
    match step
    case Register(d) => RegisterRemembers(s, c, queued, marked);
    case Activate(d) => ActivateRemembers(s, c, queued, marked);
    case Withdraw(d) => WithdrawRemembers(s, c, queued);
    case Rollback(d) => RollbackRemembers(s, c, queued, marked);
    case Park(t) => ParkRemembers(s, t, c, queued, marked);
    case Respond(t, reply) => RespondRemembers(s, t, reply, c, queued, marked);
    case Drop(t) => RespondRemembers(s, t, Cancelled(InvalidState), c, queued, marked);
    case Unregister(d) => UnregisterRemembers(s, c, queued, marked);
    case Publish(d) => PublishRemembers(s, c, queued, marked);
    case _ =>
  }

  lemma StepRemembers(s: State, step: Step, c: CallId, queued: bool, marked: bool)
    requires Inv(s) && Enabled(s, step) && c in s.calls && Remembers(s, c, queued, marked)
    ensures var r := Apply(s, step);
            Remembers(r, c, queued || InQueue(r, c), marked || step == MarkRunning(c))
  {
    if step == MarkRunning(c) { assert !marked; }
    hide Inv, Remembers, InQueue, Untouched, Subject, MarkRunningStep, EnterStep;
    var r := Apply(s, step);
    if Subject(s, step) != Some(c) {
      StepElsewhere(s, step, c);
      UntouchedRemembers(s, r, c, queued, marked);
      SubjectIs(s, c);
    } else if step == Enter(c) {
      EnterRemembers(s, c, queued, marked);
    } else if step == MarkRunning(c) {
      MarkRemembers(s, c, queued);
      NotInQueue(r, c, queued, true);
    } else {
      SubjectRemembers(s, step, c, queued, marked);
      NotInQueue(r, c, queued, marked);
    }
  }

  lemma SubjectIs(s: State, c: CallId)
    ensures Subject(s, MarkRunning(c)) == Some(c)
  {
  }

  /** The call has been in a queue by state k. */
  ghost predicate EverQueued(states: seq<State>, k: nat, c: CallId) {
    exists m :: 0 <= m <= k && m < |states| && InQueue(states[m], c)
  }

  /** The call has been marked as running before state k. */
  ghost predicate EverMarked(steps: seq<Step>, k: nat, c: CallId) {
    exists m :: 0 <= m < k && m < |steps| && steps[m] == MarkRunning(c)
  }

  lemma {:induction false} RunRemembers(states: seq<State>, steps: seq<Step>, k: nat, c: CallId)
    requires Run(states, steps) && k < |states|
    ensures if c in states[k].calls then Remembers(states[k], c, EverQueued(states, k, c), EverMarked(steps, k, c))
            else !EverQueued(states, k, c) && !EverMarked(steps, k, c)
  {
    hide Inv, Remembers, Apply, Enabled, InQueue, Run;
    RunStarts(states, steps, c);
    if k > 0 {
      RunRemembers(states, steps, k - 1, c);
      RunKeepsInv(states, steps, k - 1);
      RunStep(states, steps, k - 1);
      EverUnrolls(states, steps, k, c);
      var s, step := states[k - 1], steps[k - 1];
      if c in s.calls {
        StepExtends(s, step);
        StepRemembers(s, step, c, EverQueued(states, k - 1, c), EverMarked(steps, k - 1, c));
      } else {
        BirthRemembers(s, step, c);
      }
    }
  }

  lemma RunStarts(states: seq<State>, steps: seq<Step>, c: CallId)
    requires Run(states, steps) && |states| > 0
    ensures |states| == |steps| + 1
    ensures c !in states[0].calls && !EverQueued(states, 0, c) && !EverMarked(steps, 0, c)
  {
  }

  lemma EverUnrolls(states: seq<State>, steps: seq<Step>, k: nat, c: CallId)
    requires 0 < k < |states| && k <= |steps|
    ensures EverQueued(states, k, c) <==> EverQueued(states, k - 1, c) || InQueue(states[k], c)
    ensures EverMarked(steps, k, c) <==> EverMarked(steps, k - 1, c) || steps[k - 1] == MarkRunning(c)
  {
    hide InQueue;
    if EverQueued(states, k, c) && !InQueue(states[k], c) {
      var m :| 0 <= m <= k && m < |states| && InQueue(states[m], c);
      assert m <= k - 1;
    }
  }

  /** A call that is not there is touched only by its invocation. */
  lemma BirthRemembers(s: State, step: Step, c: CallId)
    requires Inv(s) && Enabled(s, step) && c !in s.calls
    ensures var r := Apply(s, step);
            && step != MarkRunning(c) && !InQueue(r, c)
            && (c in r.calls ==> Remembers(r, c, false, false))
  {
    if step.Invoke? && step.call == c {
      assert c !in s.waking && c !in s.unwoken;
    } else {
      assert c !in s.place;
      SubjectExists(s, step, c);
      StepElsewhere(s, step, c);
      hide Apply, Inv;
    }
  }

  lemma SubjectExists(s: State, step: Step, c: CallId)
    requires Inv(s) && Enabled(s, step) && c !in s.calls && !(step.Invoke? && step.call == c)
    ensures Subject(s, step) != Some(c)
  {
    match step
    case Park(t) => if First(s, s.doing[t].obj) == Some(c) { QueuedFirst(s, s.doing[t].obj); }
    case Respond(t, _) => assert TaskInv(s, t);
    case Drop(t) => assert TaskInv(s, t);
    case _ =>
  }

  /**
   Over any run, when the task chosen for a call could not be woken, its caller is told exactly if the call was never
   queued; and a call that was marked as running is not withdrawn.
   */
  lemma ToldIffNotQueued(states: seq<State>, steps: seq<Step>, k: nat, c: CallId)
    requires Run(states, steps) && k < |states| && c in states[k].unwoken
    ensures states[k].unwoken[c] <==> !EverQueued(states, k, c)
    ensures !EverMarked(steps, k, c)
  {
    hide EverQueued, EverMarked, Run;
    RunKeepsInv(states, steps, k);
    assert c in states[k].calls;
    RunRemembers(states, steps, k, c);
  }

  // ---- The lifecycle state

  lemma EntryKeepsCalls(s: State, c: CallId, p: Place, o: ObjectId)
    requires o in s.objects
    ensures Move(s, c, p).calls == s.calls && QueueCall(s, c, o).calls == s.calls
    ensures s.objects[o].waiters != [] ==> MatchWaiter(s, c, o).calls == s.calls
  {
  }

  lemma EnterKeepsCalls(s: State, c: CallId)
    requires Enabled(s, Enter(c))
    ensures EnterStep(s, c).calls == s.calls
  {
    hide Move, QueueCall, MatchWaiter;
    EntryKeepsCalls(s, c, Refused, s.place[c].obj);
  }

  lemma WaitKeepsCalls(s: State, t: TaskId, o: ObjectId)
    requires o in s.objects && t in s.tasks
    ensures AbortWait(s, t, s.objects[o].kind).calls == s.calls && ParkTask(s, t, o).calls == s.calls
    ensures s.objects[o].pending != [] ==> MatchCall(s, t, o).calls == s.calls
  {
  }

  lemma ParkKeepsCalls(s: State, t: TaskId)
    requires Enabled(s, Park(t))
    ensures ParkStep(s, t).calls == s.calls
  {
    hide AbortWait, ParkTask, MatchCall;
    WaitKeepsCalls(s, t, s.doing[t].obj);
  }

  lemma DeliveryKeepsCalls(s: State, c: CallId, t: TaskId, o: ObjectId, what: Delivery, told: bool)
    ensures t in s.tasks ==> Arm(s, c, t, what, told).calls == s.calls
    ensures Reject(s, c, o, told).calls == s.calls
  {
  }

  lemma ActivateKeepsCalls(s: State, c: CallId)
    requires Enabled(s, Activate(c))
    ensures ActivateStep(s, c).calls == s.calls
  {
    hide Arm, Reject;
    var Delivering(t, o, _, told) := s.place[c];
    DeliveryKeepsCalls(s, c, t, o, Delivery(s.objects[o].usrIp, s.calls[c].frame), told);
  }

  lemma BackKeepsCalls(s: State, c: CallId, t: TaskId)
    ensures LetGo(s, c).calls == s.calls && TakeBack(s, c, t).calls == s.calls
  {
  }

  lemma RollbackKeepsCalls(s: State, c: CallId)
    requires c in s.waking
    ensures RollbackStep(s, c).calls == s.calls
  {
    hide LetGo, TakeBack;
    BackKeepsCalls(s, c, s.waking[c].task);
  }

  lemma LeaveKeepsCalls(s: State, t: TaskId, reply: Reply)
    requires Enabled(s, Respond(t, reply))
    ensures RespondStep(s, t, reply).calls == s.calls && DropStep(s, t).calls == s.calls
  {
  }

  lemma RegisterKeepsCalls(s: State, c: CallId)
    requires Enabled(s, Register(c))
    ensures RegisterStep(s, c).calls == s.calls
  {
  }

  lemma RemoveKeepsCalls(s: State, c: CallId, p: Place)
    requires c in s.place && s.place[c].Finishing?
    ensures Remove(s, c).calls == s.calls && Move(s, c, p).calls == s.calls
  {
  }

  lemma UnregisterKeepsCalls(s: State, c: CallId)
    requires Enabled(s, Unregister(c))
    ensures UnregisterStep(s, c).calls == s.calls
  {
    hide Remove, Move;
    RemoveKeepsCalls(s, c, Unheard(s.place[c].task, s.place[c].reply));
  }

  lemma SubjectKeepsCalls(s: State, step: Step)
    requires Enabled(s, step) && Subject(s, step).Some? && !step.Invoke? && !step.MarkRunning? && !step.Publish?
    ensures Apply(s, step).calls == s.calls
  {
    hide First;
    hide NewTaskStep, NewObjectStep, CloseStep, InvokeStep, EnterStep, RegisterStep, ActivateStep, MarkRunningStep;
    hide RollbackStep, BeginStep, ParkStep, ResumeStep, RespondStep, DropStep, UnregisterStep, PublishStep;
    match step
    case Enter(c) => EnterKeepsCalls(s, c);
    case Register(c) => RegisterKeepsCalls(s, c);
    case Activate(c) => ActivateKeepsCalls(s, c);
    case Withdraw(c) => assert WithdrawStep(s, c).calls == s.calls;
    case Rollback(c) => RollbackKeepsCalls(s, c);
    case Park(t) => ParkKeepsCalls(s, t);
    case Respond(t, reply) => LeaveKeepsCalls(s, t, reply);
    case Drop(t) => LeaveKeepsCalls(s, t, Cancelled(InvalidState));
    case Unregister(c) => UnregisterKeepsCalls(s, c);
    case _ =>
  }

  function Terminal(reply: Reply): CallState {
    match reply
    case Answered(_) => Replied
    case Cancelled(_) => Cancelled'
  }

  /** The state and the reply of a call change in two sections only: it is marked as running, or its reply is published. */
  lemma StepLives(s: State, step: Step, c: CallId)
    requires Inv(s) && Enabled(s, step) && c in s.calls
    ensures var r := Apply(s, step);
            && c in r.calls
            && (step == Publish(c) ==>
                  s.place[c].Finishing? && r.calls[c].state == Terminal(s.place[c].reply)
                  && r.calls[c].reply == Some(s.place[c].reply))
            && (step == MarkRunning(c) ==> r.calls[c] == s.calls[c].(state := Running))
            && (step != Publish(c) && step != MarkRunning(c) ==> r.calls[c] == s.calls[c])
  {
    hide Inv;
    if Subject(s, step) != Some(c) {
      StepElsewhere(s, step, c);
      hide Apply;
    } else if step == Publish(c) {
      PublishLives(s, c);
    } else if !step.MarkRunning? {
      SubjectKeepsCalls(s, step);
      hide Apply;
    }
  }

  lemma PublishLives(s: State, c: CallId)
    requires Enabled(s, Publish(c))
    ensures var r := PublishStep(s, c);
            c in r.calls && r.calls[c].state == Terminal(s.place[c].reply) && r.calls[c].reply == Some(s.place[c].reply)
  {
  }

  /** The state of the call shows the reply it has. */
  predicate Shows(x: Call) {
    x.reply.Some? ==> x.state == Terminal(x.reply.value)
  }

  /** The step marks as running a call that has been answered already. */
  predicate MarksLate(s: State, step: Step, c: CallId) {
    step == MarkRunning(c) && c in s.calls && s.calls[c].reply.Some?
  }

  lemma StepShows(s: State, step: Step, c: CallId)
    requires Inv(s) && Enabled(s, step) && c in s.calls && Shows(s.calls[c])
    ensures var r := Apply(s, step); c in r.calls && (Shows(r.calls[c]) <==> !MarksLate(s, step, c))
  {
    hide Inv, Apply, Enabled;
    StepLives(s, step, c);
  }

  lemma BirthShows(s: State, step: Step, c: CallId)
    requires Inv(s) && Enabled(s, step) && c !in s.calls
    ensures var r := Apply(s, step); c in r.calls ==> r.calls[c].state == Pending && r.calls[c].reply == None
  {
    if !(step.Invoke? && step.call == c) {
      SubjectExists(s, step, c);
      StepElsewhere(s, step, c);
      hide Apply, Inv;
    }
  }

  ghost predicate AlwaysShows(states: seq<State>, k: nat, c: CallId) {
    forall i | 0 <= i <= k && i < |states| && c in states[i].calls :: Shows(states[i].calls[c])
  }

  ghost predicate NeverLate(states: seq<State>, steps: seq<Step>, k: nat, c: CallId) {
    forall i | 0 <= i < k && i < |states| && i < |steps| :: !MarksLate(states[i], steps[i], c)
  }

  /**
   Over any run the state of a call shows the reply it has, in all states up to the k-th, exactly when it is never
   marked as running after its reply was published.
   */
  lemma {:induction false} RunShowsIff(states: seq<State>, steps: seq<Step>, k: nat, c: CallId)
    requires Run(states, steps) && k < |states|
    ensures AlwaysShows(states, k, c) <==> NeverLate(states, steps, k, c)
  {
    hide Inv, Apply, Enabled, Shows, MarksLate, Run;
    RunStarts(states, steps, c);
    if k > 0 {
      RunShowsIff(states, steps, k - 1, c);
      RunKeepsInv(states, steps, k - 1);
      RunStep(states, steps, k - 1);
      var s, step := states[k - 1], steps[k - 1];
      if c in s.calls ==> Shows(s.calls[c]) { StepShowsIff(s, step, states[k], c); }
      assert AlwaysShows(states, k, c) <==>
             AlwaysShows(states, k - 1, c) && (c in states[k].calls ==> Shows(states[k].calls[c]));
      assert NeverLate(states, steps, k, c) <==> NeverLate(states, steps, k - 1, c) && !MarksLate(s, step, c);
    }
  }

  lemma StepShowsIff(s: State, step: Step, r: State, c: CallId)
    requires Inv(s) && Enabled(s, step) && r == Apply(s, step) && (c in s.calls ==> Shows(s.calls[c]))
    ensures (c in r.calls ==> Shows(r.calls[c])) <==> !MarksLate(s, step, c)
  {
    hide Inv, Apply, Enabled;
    if c in s.calls { StepShows(s, step, c); } else { BirthShows(s, step, c); }
  }

  // ---- A run in which a call is marked late

  const WORD: Reply := Answered([1])

  /** As in the losing run a waiting task pops a call, but then it answers before the thread that woke it goes on. */
  const LATE_STEPS: seq<Step> := LOSING_STEPS[..8] + [Respond(0, WORD), Unregister(0), Publish(0), MarkRunning(0)]

  const LATE_RUN: seq<State> :=
    var s8 := LOSING_RUN[8];
    var given := Delivered(0, Delivery(0, []));
    var s9 := s8.(tasks := map[0 := FRESH_TASK.(delivery := Some(Delivery(0, [])))],
                  place := map[0 := Finishing(0, WORD, false)], history := map[0 := [given, Answer(0, WORD)]]);
    var s10 := s9.(place := map[0 := Finishing(0, WORD, true)], inflight := {});
    var s11 := s10.(calls := map[0 := Call([], Replied, Some(WORD))], place := map[0 := Finished(0, WORD)],
                    history := map[0 := [given, Answer(0, WORD), Published(WORD)]]);
    var s12 := s11.(calls := map[0 := Call([], Running, Some(WORD))], waking := map[]);
    LOSING_RUN[..9] + [s9, s10, s11, s12]

  ghost predicate LateStep(i: nat)
    requires i < |LATE_STEPS|
  {
    Enabled(LATE_RUN[i], LATE_STEPS[i]) && LATE_RUN[i + 1] == Apply(LATE_RUN[i], LATE_STEPS[i])
  }

  lemma LateAnswer()
    ensures LateStep(8)
  {
    var r := TakeActive(LATE_RUN[8], 0, 0, WORD);
    assert LATE_RUN[8] == LOSING_RUN[8];
    assert Apply(LATE_RUN[8], Respond(0, WORD)) == r;
    assert r.history[0] == [Delivered(0, Delivery(0, [])), Answer(0, WORD)];
    assert r.tasks == LATE_RUN[9].tasks;
    assert r.place == LATE_RUN[9].place;
    assert r.history == LATE_RUN[9].history;
  }

  lemma LateRemoval()
    ensures LateStep(9)
  {
    var r := Remove(LATE_RUN[9], 0);
    assert LATE_RUN[9].inflight == {0};
    assert Apply(LATE_RUN[9], Unregister(0)) == r;
    assert r.place == LATE_RUN[10].place;
    assert r.inflight == LATE_RUN[10].inflight;
  }

  lemma LatePublication()
    ensures LateStep(10)
  {
    var r := PublishStep(LATE_RUN[10], 0);
    assert Apply(LATE_RUN[10], Publish(0)) == r;
    assert r.history[0] == [Delivered(0, Delivery(0, [])), Answer(0, WORD), Published(WORD)];
    assert r.calls == LATE_RUN[11].calls;
    assert r.place == LATE_RUN[11].place;
    assert r.history == LATE_RUN[11].history;
  }

  lemma LateMark()
    ensures LateStep(11)
  {
    var r := MarkRunningStep(LATE_RUN[11], 0);
    assert LATE_RUN[11].waking == map[0 := Waking(0, false, false)];
    assert r.calls == LATE_RUN[12].calls;
    assert r.waking == LATE_RUN[12].waking;
  }

  lemma LatePrefix(i: nat)
    requires i < 8
    ensures LateStep(i)
  {
    hide Apply, Enabled;
    ObjectAppears();
    TaskAppears();
    CallIsMade();
    CallIsQueued();
    TaskWaits();
    CallIsPopped();
    CallIsRegistered();
    CallIsArmed();
    assert i == 0 || i == 1 || i == 2 || i == 3 || i == 4 || i == 5 || i == 6 || i == 7;
    assert LosingStep(i) && LATE_STEPS[i] == LOSING_STEPS[i];
    assert LATE_RUN[i] == LOSING_RUN[i] && LATE_RUN[i + 1] == LOSING_RUN[i + 1];
  }

  lemma LateRunIsRun()
    ensures Run(LATE_RUN, LATE_STEPS)
  {
    hide Apply, Enabled;
    LateAnswer();
    LateRemoval();
    LatePublication();
    LateMark();
    assert LATE_RUN[0] == LOSING_RUN[0] == INITIAL && |LATE_RUN| == |LATE_STEPS| + 1;
    forall i | 0 <= i < |LATE_STEPS|
      ensures Enabled(LATE_RUN[i], LATE_STEPS[i]) && LATE_RUN[i + 1] == Apply(LATE_RUN[i], LATE_STEPS[i])
    {
      if i < 8 { LatePrefix(i); } else { assert i == 8 || i == 9 || i == 10 || i == 11; }
      assert LateStep(i);
    }
  }

  /** The state of a call is not final: here it says that the call is running after its reply has been published. */
  lemma RepliedCallRuns()
    ensures Run(LATE_RUN, LATE_STEPS)
    ensures LATE_RUN[11].calls == map[0 := Call([], Replied, Some(WORD))]
    ensures LATE_RUN[12].calls == map[0 := Call([], Running, Some(WORD))]
  {
    hide Run;
    LateRunIsRun();
  }
}
