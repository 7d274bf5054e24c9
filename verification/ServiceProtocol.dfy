/**
 The userspace service call protocol: kernel/src/service/dispatcher.rs, kernel/src/service/object.rs and the
 service state in kernel/src/sched/task.rs, as a state machine in which each lock-protected section is one step
 and the sections of different threads interleave freely. Waking the chosen task may fail at any time.
 */
module ServiceProtocol {
  import opened Prelude

  type TaskId = nat
  type CallId = nat
  type ObjectId = nat

  datatype WaitKind = Object | Pager | SyscallHandler

  datatype ServiceError = InvalidState | ServiceUnavailable | ServiceFaulted

  datatype Reply = Answered(words: seq<nat>) | Cancelled(error: ServiceError)

  datatype Delivery = Delivery(usrIp: nat, frame: seq<nat>)

  /** `TaskServiceState`; a task has a role exactly while it waits or serves. */
  datatype TaskState = TaskState(
    waiting: bool,
    waitKind: Option<WaitKind>,
    role: Option<WaitKind>,
    active: Option<CallId>,
    delivery: Option<Delivery>)

  datatype CallState = Pending | Running | Replied | Cancelled'

  datatype Call = Call(frame: seq<nat>, state: CallState, reply: Option<Reply>)

  /** `UserObjectInner`, and alike the pager and syscall-handler objects. */
  datatype UserObject = UserObject(kind: WaitKind, usrIp: nat, open: bool, waiters: seq<TaskId>, pending: seq<CallId>)

  /** How far the thread that holds a call has got with it. */
  datatype Place =
    | Entering(obj: ObjectId)                                                          // in `queue_or_deliver_call`
    | Queued(obj: ObjectId)
    | Delivering(task: TaskId, obj: ObjectId, registered: bool, byInvoker: bool)       // in `deliver_to_waiter`
    | Serving(task: TaskId)
    | Finishing(task: TaskId, reply: Reply, removed: bool)                             // replying or cancelling
    | Finished(task: TaskId, reply: Reply)
    | Refused
    | Withdrawn(task: TaskId)                                                          // taken back from the task
    | Unheard(task: TaskId, reply: Reply)                                              // answered after that
    | Lost

  /** What the thread of a task is doing inside `wait`. */
  datatype Doing = Idle | Begun(obj: ObjectId) | ParkedAt(obj: ObjectId) | Receiving(call: CallId)

  /** The thread that armed `task` with a call and has yet to wake it, or to take the call back. */
  datatype Waking = Waking(task: TaskId, byInvoker: bool, failed: bool)

  /** What has happened to a call. */
  datatype Event =
    | Delivered(task: TaskId, what: Delivery)
    | Answer(task: TaskId, reply: Reply)
    | Published(reply: Reply)

  /**
   The kernel state, the control state of the threads (`place`, `doing`, `waking`), and a record of the past: the
   calls whose task could not be woken, each with whether its caller is told, the events of each call and, for each
   object, the calls submitted to it and the calls handed to a waiter.
   */
  datatype State = State(
    tasks: map<TaskId, TaskState>,
    objects: map<ObjectId, UserObject>,
    calls: map<CallId, Call>,
    inflight: set<CallId>,
    place: map<CallId, Place>,
    doing: map<TaskId, Doing>,
    waking: map<CallId, Waking>,
    unwoken: map<CallId, bool>,
    history: map<CallId, seq<Event>>,
    submitted: map<ObjectId, seq<CallId>>,
    handed: map<ObjectId, seq<CallId>>)

  const INITIAL: State := State(map[], map[], map[], {}, map[], map[], map[], map[], map[], map[], map[])

  const FRESH_TASK: TaskState := TaskState(false, None, None, None, None)

  datatype Step =
    | NewTask(task: TaskId)
    | NewObject(obj: ObjectId, kind: WaitKind, usrIp: nat)
    | Close(obj: ObjectId)
    | Invoke(call: CallId, obj: ObjectId, frame: seq<nat>)
    | Enter(call: CallId)
    | Register(call: CallId)
    | Activate(call: CallId)
    | MarkRunning(call: CallId)
    | Withdraw(call: CallId)
    | Rollback(call: CallId)
    | Begin(task: TaskId, obj: ObjectId)
    | Park(task: TaskId)
    | Resume(task: TaskId)
    | Respond(task: TaskId, reply: Reply)
    | Drop(task: TaskId)
    | Unregister(call: CallId)
    | Publish(call: CallId)

  /** Program order: which section may run next. A task is dropped only when no queue or thread holds it. */
  predicate Enabled(s: State, step: Step) {
    match step
    case NewTask(t) => t !in s.tasks && t !in s.doing
    case NewObject(o, _, _) => o !in s.objects
    case Close(o) => o in s.objects
    case Invoke(c, o, _) => c !in s.calls && c !in s.place && o in s.objects
    case Enter(c) => c in s.calls && c in s.place && s.place[c].Entering? && s.place[c].obj in s.objects
    case Register(c) => c in s.calls && c in s.place && s.place[c].Delivering? && !s.place[c].registered
    case Activate(c) =>
      c in s.calls && c in s.place && s.place[c].Delivering? && s.place[c].registered && s.place[c].obj in s.objects
    case MarkRunning(c) => c in s.calls && c in s.waking && !s.waking[c].failed
    case Withdraw(c) => c in s.calls && c in s.waking && !s.waking[c].failed
    case Rollback(c) => c in s.calls && c in s.waking && s.waking[c].failed
    case Begin(t, o) => t in s.tasks && t in s.doing && s.doing[t] == Idle && o in s.objects
    case Park(t) => t in s.tasks && t in s.doing && s.doing[t].Begun? && s.doing[t].obj in s.objects
    case Resume(t) => t in s.tasks
    case Respond(t, _) => t in s.tasks && t in s.doing && s.doing[t] == Idle
    case Drop(t) => t in s.tasks && t in s.doing && s.doing[t] == Idle
    case Unregister(c) => c in s.calls && c in s.place && s.place[c].Finishing? && !s.place[c].removed
    case Publish(c) => c in s.calls && c in s.place && s.place[c].Finishing? && s.place[c].removed
  }

  function Move(s: State, c: CallId, p: Place): State {
    s.(place := s.place[c := p])
  }

  function Note(s: State, c: CallId, e: Event): State {
    s.(history := s.history[c := Past(s.history, c) + [e]])
  }

  function Past<K, V>(m: map<K, seq<V>>, k: K): seq<V> {
    if k in m then m[k] else []
  }

  // ---- `queue_or_deliver_call`, `wait`

  function QueueCall(s: State, c: CallId, o: ObjectId): State
    requires o in s.objects
  {
    var obj := s.objects[o];
    Move(s, c, Queued(o))
      .(objects := s.objects[o := obj.(pending := obj.pending + [c])],
        submitted := s.submitted[o := Past(s.submitted, o) + [c]])
  }

  /** Pop the first parked waiter for a new call. */
  function MatchWaiter(s: State, c: CallId, o: ObjectId): State
    requires o in s.objects && s.objects[o].waiters != []
  {
    var obj := s.objects[o];
    Move(s, c, Delivering(obj.waiters[0], o, false, true))
      .(objects := s.objects[o := obj.(waiters := obj.waiters[1..])],
        doing := s.doing[obj.waiters[0] := Receiving(c)],
        submitted := s.submitted[o := Past(s.submitted, o) + [c]],
        handed := s.handed[o := Past(s.handed, o) + [c]])
  }

  function EnterStep(s: State, c: CallId): State
    requires Enabled(s, Enter(c))
  {
    var o := s.place[c].obj;
    if !s.objects[o].open then Move(s, c, Refused)
    else if s.objects[o].waiters == [] then QueueCall(s, c, o)
    else MatchWaiter(s, c, o)
  }

  function BeginWait(s: State, t: TaskId, o: ObjectId): State
    requires t in s.tasks && o in s.objects
  {
    var kind := s.objects[o].kind;
    s.(tasks := s.tasks[t := s.tasks[t].(waiting := true, waitKind := Some(kind), role := Some(kind))],
       doing := s.doing[t := Begun(o)])
  }

  function BeginStep(s: State, t: TaskId, o: ObjectId): State
    requires Enabled(s, Begin(t, o))
  {
    var st := s.tasks[t];
    if st.waiting || st.active.Some? || st.delivery.Some? then s else BeginWait(s, t, o)
  }

  /** `abort_service_wait`, which acts only on a wait of the given kind. */
  function Abort(st: TaskState, kind: WaitKind): TaskState {
    if st.waitKind != Some(kind) then st
    else st.(role := None, waiting := false, waitKind := None, delivery := None)
  }

  function AbortWait(s: State, t: TaskId, kind: WaitKind): State
    requires t in s.tasks
  {
    s.(tasks := s.tasks[t := Abort(s.tasks[t], kind)], doing := s.doing[t := Idle])
  }

  /** Pop the first pending call for a new waiter. */
  function MatchCall(s: State, t: TaskId, o: ObjectId): State
    requires o in s.objects && s.objects[o].pending != []
  {
    var obj := s.objects[o];
    Move(s, obj.pending[0], Delivering(t, o, false, false))
      .(objects := s.objects[o := obj.(pending := obj.pending[1..])],
        doing := s.doing[t := Receiving(obj.pending[0])],
        handed := s.handed[o := Past(s.handed, o) + [obj.pending[0]]])
  }

  function ParkTask(s: State, t: TaskId, o: ObjectId): State
    requires o in s.objects
  {
    var obj := s.objects[o];
    s.(objects := s.objects[o := obj.(waiters := obj.waiters + [t])], doing := s.doing[t := ParkedAt(o)])
  }

  function ParkStep(s: State, t: TaskId): State
    requires Enabled(s, Park(t))
  {
    var o := s.doing[t].obj;
    var obj := s.objects[o];
    if !obj.open then AbortWait(s, t, obj.kind)
    else if obj.pending == [] then ParkTask(s, t, o)
    else MatchCall(s, t, o)
  }

  // ---- `deliver_to_waiter`

  function RegisterStep(s: State, c: CallId): State
    requires Enabled(s, Register(c))
  {
    Move(s, c, s.place[c].(registered := true)).(inflight := s.inflight + {c})
  }

  predicate Accepts(s: State, t: TaskId) {
    t in s.tasks && s.tasks[t].waiting && s.tasks[t].waitKind.Some?
  }

  function Arm(s: State, c: CallId, t: TaskId, what: Delivery, byInvoker: bool): State
    requires t in s.tasks
  {
    var st := s.tasks[t].(waiting := false, active := Some(c), delivery := Some(what), waitKind := None);
    Move(Note(s, c, Delivered(t, what)), c, Serving(t))
      .(tasks := s.tasks[t := st], doing := s.doing[t := Idle], waking := s.waking[c := Waking(t, byInvoker, false)])
  }

  /** The registration is undone; an invoker then retries, while a waiter drops the call it popped. */
  function Reject(s: State, c: CallId, o: ObjectId, byInvoker: bool): State {
    Move(s, c, if byInvoker then Entering(o) else Lost).(inflight := s.inflight - {c})
  }

  function ActivateStep(s: State, c: CallId): State
    requires Enabled(s, Activate(c))
  {
    var Delivering(t, o, _, byInvoker) := s.place[c];
    if Accepts(s, t) then Arm(s, c, t, Delivery(s.objects[o].usrIp, s.calls[c].frame), byInvoker)
    else Reject(s, c, o, byInvoker)
  }

  function MarkRunningStep(s: State, c: CallId): State
    requires c in s.calls
  {
    s.(calls := s.calls[c := s.calls[c].(state := Running)], waking := s.waking - {c})
  }

  /** The task could not be woken: the registration is undone, */
  function WithdrawStep(s: State, c: CallId): State
    requires c in s.waking
  {
    s.(inflight := s.inflight - {c}, waking := s.waking[c := s.waking[c].(failed := true)],
       unwoken := s.unwoken[c := s.waking[c].byInvoker])
  }

  /** then `cancel_active_service_call` takes the call back, if the task still serves it. */
  function RollbackStep(s: State, c: CallId): State
    requires c in s.waking
  {
    var t := s.waking[c].task;
    if t in s.tasks && s.tasks[t].active == Some(c) then TakeBack(s, c, t) else LetGo(s, c)
  }

  function LetGo(s: State, c: CallId): State {
    s.(waking := s.waking - {c})
  }

  function TakeBack(s: State, c: CallId, t: TaskId): State {
    Move(LetGo(s, c), c, Withdrawn(t)).(tasks := s.tasks[t := FRESH_TASK])
  }

  // ---- `complete_current_call`, `cancel_call`, `Drop for Task`

  /** The call leaves its task with a reply. */
  function Finish(s: State, t: TaskId, c: CallId, reply: Reply): State {
    Move(Note(s, c, Answer(t, reply)), c, Finishing(t, reply, false))
  }

  function TakeActive(s: State, t: TaskId, c: CallId, reply: Reply): State
    requires t in s.tasks
  {
    Finish(s, t, c, reply).(tasks := s.tasks[t := s.tasks[t].(active := None, role := None)])
  }

  function RespondStep(s: State, t: TaskId, reply: Reply): State
    requires Enabled(s, Respond(t, reply))
  {
    if s.tasks[t].active == None then s else TakeActive(s, t, s.tasks[t].active.value, reply)
  }

  function Without(s: State, t: TaskId): State {
    s.(tasks := s.tasks - {t}, doing := s.doing - {t})
  }

  function DropStep(s: State, t: TaskId): State
    requires Enabled(s, Drop(t))
  {
    var active := s.tasks[t].active;
    if active == None then Without(s, t) else Finish(Without(s, t), t, active.value, Cancelled(ServiceFaulted))
  }

  function UnregisterStep(s: State, c: CallId): State
    requires Enabled(s, Unregister(c))
  {
    if c !in s.inflight then Move(s, c, Unheard(s.place[c].task, s.place[c].reply)) else Remove(s, c)
  }

  function Remove(s: State, c: CallId): State
    requires c in s.place && s.place[c].Finishing?
  {
    Move(s, c, s.place[c].(removed := true)).(inflight := s.inflight - {c})
  }

  function PublishStep(s: State, c: CallId): State
    requires Enabled(s, Publish(c))
  {
    var Finishing(t, r, _) := s.place[c];
    var state := if r.Answered? then Replied else Cancelled';
    Move(Note(s, c, Published(r)), c, Finished(t, r))
      .(calls := s.calls[c := s.calls[c].(state := state, reply := Some(r))])
  }

  // ---- tasks and objects come and go

  function NewTaskStep(s: State, t: TaskId): State {
    s.(tasks := s.tasks[t := FRESH_TASK], doing := s.doing[t := Idle])
  }

  function NewObjectStep(s: State, o: ObjectId, kind: WaitKind, usrIp: nat): State {
    s.(objects := s.objects[o := UserObject(kind, usrIp, true, [], [])])
  }

  function CloseStep(s: State, o: ObjectId): State
    requires o in s.objects
  {
    s.(objects := s.objects[o := s.objects[o].(open := false)])
  }

  function InvokeStep(s: State, c: CallId, o: ObjectId, frame: seq<nat>): State {
    Move(s.(calls := s.calls[c := Call(frame, Pending, None)]), c, Entering(o))
  }

  function ResumeStep(s: State, t: TaskId): State
    requires t in s.tasks
  {
    s.(tasks := s.tasks[t := s.tasks[t].(delivery := None)])
  }

  function Apply(s: State, step: Step): State
    requires Enabled(s, step)
  {
    match step
    case NewTask(t) => NewTaskStep(s, t)
    case NewObject(o, kind, usrIp) => NewObjectStep(s, o, kind, usrIp)
    case Close(o) => CloseStep(s, o)
    case Invoke(c, o, frame) => InvokeStep(s, c, o, frame)
    case Enter(c) => EnterStep(s, c)
    case Register(c) => RegisterStep(s, c)
    case Activate(c) => ActivateStep(s, c)
    case MarkRunning(c) => MarkRunningStep(s, c)
    case Withdraw(c) => WithdrawStep(s, c)
    case Rollback(c) => RollbackStep(s, c)
    case Begin(t, o) => BeginStep(s, t, o)
    case Park(t) => ParkStep(s, t)
    case Resume(t) => ResumeStep(s, t)
    case Respond(t, reply) => RespondStep(s, t, reply)
    case Drop(t) => DropStep(s, t)
    case Unregister(c) => UnregisterStep(s, c)
    case Publish(c) => PublishStep(s, c)
  }
}
