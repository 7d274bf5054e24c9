/**
 How a parked task learns that a call has come: `wait_for_service_delivery` of kernel/src/sched/task.rs, a loop that
 looks at the task's service state, registers a listener, looks again and sleeps. One waiting thread against whatever
 the other threads do to its task meanwhile.
 */
module ServiceWaits {
  import opened Prelude
  import opened ServiceProtocol
  import opened ServiceObjects

  /** Where the loop is. A listener is notified if the event has fired since it was registered. */
  datatype Waiter = Looking | Listening(notified: bool) | Asleep(notified: bool) | Returned(ok: bool)

  /** The service state of the task, the waiting thread, and what has happened to the task so far. */
  datatype Wait = Wait(task: TaskState, kind: WaitKind, waiter: Waiter, armed: bool, withdrawn: bool)

  datatype Move = Look | Wake | Arm(call: CallId, what: Delivery) | TakeBack

  /** What either look at the state decides: return, or go on waiting. */
  function Verdict(st: TaskState, kind: WaitKind): Option<bool> {
    if st.delivery.Some? then Some(true)
    else if st.waitKind != Some(kind) || !st.waiting then Some(false)
    else None
  }

  predicate Possible(w: Wait, move: Move) {
    match move
    case Look => w.waiter.Looking? || w.waiter.Listening?
    case Wake => w.waiter == Asleep(true)
    case Arm(_, _) => w.task.waiting && w.task.waitKind.Some?
    case TakeBack => w.task.active.Some?
  }

  /** `notify_all`. */
  function Notify(waiter: Waiter): Waiter {
    match waiter
    case Listening(_) => Listening(true)
    case Asleep(_) => Asleep(true)
    case _ => waiter
  }

  function Next(w: Wait, move: Move): Wait
    requires Possible(w, move)
  {
    match move
    case Look =>
      var verdict := Verdict(w.task, w.kind);
      w.(waiter := if verdict.Some? then Returned(verdict.value)
                   else if w.waiter.Looking? then Listening(false)
                   else Asleep(w.waiter.notified))
    case Wake => w.(waiter := Looking)
    case Arm(c, what) => w.(task := Arming(w.task, c, what), waiter := Notify(w.waiter), armed := true)
    case TakeBack => w.(task := FRESH_TASK, withdrawn := true)
  }

  /** A task that has just parked, as `Wait` leaves it. */
  predicate Parked(w: Wait) {
    && w.task.waiting && w.task.waitKind == Some(w.kind) && w.task.active == None && w.task.delivery == None
    && w.waiter == Looking && !w.armed && !w.withdrawn
  }

  // ---- Every run

  /** Until it is armed the task is as it parked; while no event has fired since it last looked, so it is still. */
  predicate Inv(w: Wait) {
    && (!w.armed ==> w.task.waiting && w.task.waitKind == Some(w.kind) && w.task.active == None && w.task.delivery == None)
    && (!w.armed ==> !w.withdrawn && !w.waiter.Returned?)
    && (w.armed && !w.withdrawn ==> !w.task.waiting && w.task.active.Some? && w.task.delivery.Some?)
    && (w.withdrawn ==> w.task == FRESH_TASK)
    && ((w.waiter.Listening? || w.waiter.Asleep?) && w.armed ==> w.waiter.notified)
    && (w.waiter == Returned(false) ==> w.withdrawn)
  }

  lemma MoveKeepsInv(w: Wait, move: Move)
    requires Inv(w) && Possible(w, move)
    ensures Inv(Next(w, move))
  {
  }

  ghost predicate Run(states: seq<Wait>, moves: seq<Move>) {
    && |states| == |moves| + 1 && Parked(states[0])
    && forall i | 0 <= i < |moves| :: Possible(states[i], moves[i]) && states[i + 1] == Next(states[i], moves[i])
  }

  lemma {:induction false} RunKeepsInv(states: seq<Wait>, moves: seq<Move>, k: nat)
    requires Run(states, moves) && k < |states|
    ensures Inv(states[k])
  {
    if k > 0 {
      RunKeepsInv(states, moves, k - 1);
      assert Possible(states[k - 1], moves[k - 1]);
      MoveKeepsInv(states[k - 1], moves[k - 1]);
    }
  }

  /**
   No wakeup is lost: a task that sleeps with no event to wake it has not been given a call. And the loop never returns
   without reason: with success only once a call has been delivered, with failure only once it has been taken back.
   */
  lemma NoLostWakeup(states: seq<Wait>, moves: seq<Move>, k: nat)
    requires Run(states, moves) && k < |states|
    ensures states[k].waiter == Asleep(false) ==> !states[k].armed && Verdict(states[k].task, states[k].kind) == None
    ensures states[k].waiter == Returned(true) ==> states[k].armed
    ensures states[k].waiter == Returned(false) ==> states[k].withdrawn
  {
    RunKeepsInv(states, moves, k);
  }

  /** What the waiting thread does next, unless it sleeps or has returned. */
  function Advance(w: Wait): Wait {
    if Possible(w, Look) then Next(w, Look) else if Possible(w, Wake) then Next(w, Wake) else w
  }

  /** Once a call has come the loop returns in at most two of its own moves, with success unless it was taken back. */
  lemma SoonReturns(states: seq<Wait>, moves: seq<Move>, k: nat)
    requires Run(states, moves) && k < |states| && states[k].armed && !states[k].waiter.Returned?
    ensures Advance(Advance(states[k])).waiter == Returned(!states[k].withdrawn)
  {
    RunKeepsInv(states, moves, k);
  }

  // ---- What the other threads do is what the protocol does

  predicate OwnStep(step: Step, t: TaskId) {
    match step
    case Begin(u, _) => u == t
    case Park(u) => u == t
    case Resume(u) => u == t
    case Respond(u, _) => u == t
    case Drop(u) => u == t
    case _ => false
  }

  /** The task is untouched, armed or rolled back, as one of the moves above does it. */
  ghost predicate MovesTask(a: TaskState, b: TaskState) {
    || b == a
    || (a.waiting && a.waitKind.Some? && exists c, what :: b == Arming(a, c, what))
    || (a.active.Some? && b == FRESH_TASK)
  }

  lemma DroppedTables(s: State, u: TaskId, c: CallId, reply: Reply)
    ensures Without(s, u).tasks == s.tasks - {u} && Finish(Without(s, u), u, c, reply).tasks == s.tasks - {u}
  {
  }

  lemma DropTables(s: State, u: TaskId)
    requires Enabled(s, Drop(u))
    ensures Apply(s, Drop(u)).tasks == s.tasks - {u}
  {
    var active := s.tasks[u].active;
    DroppedTables(s, u, if active.Some? then active.value else 0, Cancelled(ServiceFaulted));
    hide Finish, Without;
  }

  /** Every section of every other thread moves the service state of a task in one of these ways. */
  lemma OthersMove(s: State, step: Step, t: TaskId)
    requires Enabled(s, step) && t in s.tasks && !OwnStep(step, t)
    ensures var r := Apply(s, step);
            t in r.tasks && MovesTask(s.tasks[t], r.tasks[t])
  {
    match step
    case Enter(c) => EnterDoes(s, c, s.place[c].obj);
    case Park(u) => ParkDoes(s, u, s.doing[u].obj);
    case Respond(u, reply) => RespondDoes(s, u, reply);
    case Begin(u, o) => BeginDoes(s, u, o);
    case Drop(u) => DropTables(s, u);
    case Unregister(c) => UnregisterDoes(s, c, s.place[c].task, s.place[c].reply);
    case Activate(c) => ActivationMoves(s, c, t);
    case Rollback(c) => RollbackMoves(s, c, t);
    case _ => StillMoves(s, step, t);
  }

  lemma ActivationMoves(s: State, c: CallId, t: TaskId)
    requires Enabled(s, Activate(c)) && t in s.tasks
    ensures var r := Apply(s, Activate(c));
            t in r.tasks && MovesTask(s.tasks[t], r.tasks[t])
  {
    var Delivering(u, o, _, byInvoker) := s.place[c];
    ActivateDoes(s, c, u, o, byInvoker);
    hide Apply, Arming;
  }

  lemma RollbackMoves(s: State, c: CallId, t: TaskId)
    requires Enabled(s, Rollback(c)) && t in s.tasks
    ensures var r := Apply(s, Rollback(c));
            t in r.tasks && MovesTask(s.tasks[t], r.tasks[t])
  {
    RollbackDoes(s, c, s.waking[c].task);
    hide Apply;
  }

  lemma StillMoves(s: State, step: Step, t: TaskId)
    requires Enabled(s, step) && t in s.tasks && !OwnStep(step, t)
    requires step.NewTask? || step.NewObject? || step.Close? || step.Invoke? || step.Register? || step.MarkRunning?
             || step.Withdraw? || step.Resume? || step.Publish?
    ensures t in Apply(s, step).tasks && Apply(s, step).tasks[t] == s.tasks[t]
  {
  }
}
