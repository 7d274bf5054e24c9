/**
 The service operations as the kernel writes them, over mutable tables: each locked section is a method proved
 equal to its protocol step, and each operation, loops included, is proved to be a sequence of protocol steps.
 */
module ServiceObjects {
  import opened Prelude
  import opened ServiceProtocol

  /** Executing the sections in order takes s to r. */
  ghost predicate Follows(s: State, steps: seq<Step>, r: State)
    decreases |steps|
  {
    if steps == [] then s == r
    else Enabled(s, steps[0]) && Follows(Apply(s, steps[0]), steps[1..], r)
  }

  lemma {:induction false} FollowsThen(s: State, steps: seq<Step>, m: State, step: Step)
    requires Follows(s, steps, m) && Enabled(m, step)
    ensures Follows(s, steps + [step], Apply(m, step))
    decreases |steps|
  {
    hide Enabled, Apply;
    if steps == [] {
      assert ([step])[1..] == [];
    } else {
      FollowsThen(Apply(s, steps[0]), steps[1..], m, step);
      assert (steps + [step])[1..] == steps[1..] + [step];
    }
  }

  lemma {:induction false} FollowsJoin(s: State, a: seq<Step>, m: State, b: seq<Step>, r: State)
    requires Follows(s, a, m) && Follows(m, b, r)
    ensures Follows(s, a + b, r)
    decreases |a|
  {
    hide Enabled, Apply;
    if a == [] {
      assert a + b == b;
    } else {
      FollowsJoin(Apply(s, a[0]), a[1..], m, b, r);
      assert (a + b)[1..] == a[1..] + b;
    }
  }

  // ---- what the sections do to the tables

  predicate Tables(r: State, tasks: map<TaskId, TaskState>, objects: map<ObjectId, UserObject>,
                   calls: map<CallId, Call>, inflight: set<CallId>) {
    r.tasks == tasks && r.objects == objects && r.calls == calls && r.inflight == inflight
  }

  predicate At(r: State, c: CallId, p: Place) {
    c in r.place && r.place[c] == p
  }

  lemma QueueTables(s: State, c: CallId, o: ObjectId)
    requires o in s.objects
    ensures Tables(Move(s, c, Refused), s.tasks, s.objects, s.calls, s.inflight)
    ensures var obj := s.objects[o];
            Tables(QueueCall(s, c, o), s.tasks, s.objects[o := obj.(pending := obj.pending + [c])], s.calls, s.inflight)
  {
  }

  lemma MatchTables(s: State, c: CallId, o: ObjectId)
    requires o in s.objects && s.objects[o].waiters != []
    ensures var obj := s.objects[o];
            var r := MatchWaiter(s, c, o);
            && Tables(r, s.tasks, s.objects[o := obj.(waiters := obj.waiters[1..])], s.calls, s.inflight)
            && At(r, c, Delivering(obj.waiters[0], o, false, true))
  {
  }

  /** The entry section. */
  lemma EnterDoes(s: State, c: CallId, o: ObjectId)
    requires Enabled(s, Enter(c)) && s.place[c] == Entering(o)
    ensures c in s.calls && c in s.place && o in s.objects
    ensures var obj := s.objects[o];
            var r := Apply(s, Enter(c));
            if !obj.open then Tables(r, s.tasks, s.objects, s.calls, s.inflight)
            else if obj.waiters == [] then
              Tables(r, s.tasks, s.objects[o := obj.(pending := obj.pending + [c])], s.calls, s.inflight)
            else
              && Tables(r, s.tasks, s.objects[o := obj.(waiters := obj.waiters[1..])], s.calls, s.inflight)
              && At(r, c, Delivering(obj.waiters[0], o, false, true))
  {
    QueueTables(s, c, o);
    if s.objects[o].waiters != [] { MatchTables(s, c, o); }
    hide Move, QueueCall, MatchWaiter, Tables, At;
  }

  lemma CounterTables(s: State, t: TaskId, o: ObjectId)
    requires t in s.tasks && o in s.objects
    ensures var obj := s.objects[o];
            && Tables(AbortWait(s, t, obj.kind), s.tasks[t := Abort(s.tasks[t], obj.kind)], s.objects, s.calls, s.inflight)
            && Tables(ParkTask(s, t, o), s.tasks, s.objects[o := obj.(waiters := obj.waiters + [t])], s.calls, s.inflight)
            && (obj.pending != [] ==>
                  var r := MatchCall(s, t, o);
                  && Tables(r, s.tasks, s.objects[o := obj.(pending := obj.pending[1..])], s.calls, s.inflight)
                  && At(r, obj.pending[0], Delivering(t, o, false, false)))
  {
  }

  /** The section of a waiting task. */
  lemma ParkDoes(s: State, t: TaskId, o: ObjectId)
    requires Enabled(s, Park(t)) && s.doing[t] == Begun(o)
    ensures t in s.tasks && o in s.objects
    ensures var obj := s.objects[o];
            var r := Apply(s, Park(t));
            if !obj.open then Tables(r, s.tasks[t := Abort(s.tasks[t], obj.kind)], s.objects, s.calls, s.inflight)
            else if obj.pending == [] then
              Tables(r, s.tasks, s.objects[o := obj.(waiters := obj.waiters + [t])], s.calls, s.inflight)
            else
              && Tables(r, s.tasks, s.objects[o := obj.(pending := obj.pending[1..])], s.calls, s.inflight)
              && At(r, obj.pending[0], Delivering(t, o, false, false))
  {
    CounterTables(s, t, o);
    hide AbortWait, ParkTask, MatchCall, Tables, At, Abort;
  }

  function Arming(st: TaskState, c: CallId, what: Delivery): TaskState {
    st.(waiting := false, active := Some(c), delivery := Some(what), waitKind := None)
  }

  /** A thread is about to wake t for c. */
  predicate Wakes(r: State, c: CallId, w: Waking) {
    c in r.waking && r.waking[c] == w
  }

  lemma ArmTables(s: State, c: CallId, t: TaskId, what: Delivery, byInvoker: bool)
    requires t in s.tasks
    ensures var r := Arm(s, c, t, what, byInvoker);
            && Tables(r, s.tasks[t := Arming(s.tasks[t], c, what)], s.objects, s.calls, s.inflight)
            && At(r, c, Serving(t)) && Wakes(r, c, Waking(t, byInvoker, false)) && r.unwoken == s.unwoken
  {
  }

  lemma RejectTables(s: State, c: CallId, o: ObjectId, byInvoker: bool)
    ensures var r := Reject(s, c, o, byInvoker);
            && Tables(r, s.tasks, s.objects, s.calls, s.inflight - {c})
            && At(r, c, if byInvoker then Entering(o) else Lost) && r.unwoken == s.unwoken
  {
  }

  /** Activation. */
  lemma ActivateDoes(s: State, c: CallId, t: TaskId, o: ObjectId, byInvoker: bool)
    requires Enabled(s, Activate(c)) && s.place[c] == Delivering(t, o, true, byInvoker)
    ensures c in s.calls && o in s.objects && Apply(s, Activate(c)).unwoken == s.unwoken
    ensures var r := Apply(s, Activate(c));
            if Accepts(s, t) then
              && Tables(r, s.tasks[t := Arming(s.tasks[t], c, Delivery(s.objects[o].usrIp, s.calls[c].frame))], s.objects,
                        s.calls, s.inflight)
              && At(r, c, Serving(t)) && Wakes(r, c, Waking(t, byInvoker, false))
            else
              && Tables(r, s.tasks, s.objects, s.calls, s.inflight - {c})
              && At(r, c, if byInvoker then Entering(o) else Lost)
  {
    if Accepts(s, t) { ArmTables(s, c, t, Delivery(s.objects[o].usrIp, s.calls[c].frame), byInvoker); }
    RejectTables(s, c, o, byInvoker);
    hide Arm, Reject, Tables, At, Wakes, Arming;
  }

  lemma RegisterDoes(s: State, c: CallId)
    requires c in s.calls && c in s.place && s.place[c].Delivering? && !s.place[c].registered && s.place[c].obj in s.objects
    ensures Enabled(s, Register(c))
    ensures var r := Apply(s, Register(c));
            && Tables(r, s.tasks, s.objects, s.calls, s.inflight + {c}) && r.unwoken == s.unwoken
            && At(r, c, s.place[c].(registered := true)) && Enabled(r, Activate(c))
  {
  }

  /** The scheduler has answered: the call is marked, or withdrawn. */
  lemma WakeDoes(s: State, c: CallId, w: Waking, p: Place)
    requires c in s.calls && Wakes(s, c, w) && !w.failed && At(s, c, p)
    ensures Enabled(s, MarkRunning(c)) && Enabled(s, Withdraw(c))
    ensures var r := Apply(s, MarkRunning(c));
            Tables(r, s.tasks, s.objects, s.calls[c := s.calls[c].(state := Running)], s.inflight) && At(r, c, p)
    ensures var r := Apply(s, Withdraw(c));
            && Tables(r, s.tasks, s.objects, s.calls, s.inflight - {c}) && At(r, c, p)
            && Wakes(r, c, w.(failed := true)) && r.unwoken == s.unwoken[c := w.byInvoker]
            && Enabled(r, Rollback(c))
  {
  }

  lemma BackTables(s: State, c: CallId, t: TaskId)
    ensures Tables(LetGo(s, c), s.tasks, s.objects, s.calls, s.inflight)
    ensures var r := TakeBack(s, c, t);
            && Tables(r, s.tasks[t := FRESH_TASK], s.objects, s.calls, s.inflight)
            && At(r, c, Withdrawn(t)) && r.unwoken == s.unwoken
  {
  }

  /** The task gives the call back if it still serves it. */
  lemma RollbackDoes(s: State, c: CallId, t: TaskId)
    requires Enabled(s, Rollback(c)) && s.waking[c].task == t
    ensures var r := Apply(s, Rollback(c));
            if t in s.tasks && s.tasks[t].active == Some(c) then
              && Tables(r, s.tasks[t := FRESH_TASK], s.objects, s.calls, s.inflight)
              && At(r, c, Withdrawn(t)) && r.unwoken == s.unwoken
            else Tables(r, s.tasks, s.objects, s.calls, s.inflight)
  {
    BackTables(s, c, t);
    hide TakeBack, LetGo, Tables, At;
  }

  lemma TakeTables(s: State, t: TaskId, c: CallId, reply: Reply)
    requires t in s.tasks
    ensures var r := TakeActive(s, t, c, reply);
            && Tables(r, s.tasks[t := s.tasks[t].(active := None, role := None)], s.objects, s.calls, s.inflight)
            && At(r, c, Finishing(t, reply, false))
  {
  }

  /** A task lets go of its call to answer it. */
  lemma RespondDoes(s: State, t: TaskId, reply: Reply)
    requires Enabled(s, Respond(t, reply))
    ensures t in s.tasks
    ensures var r := Apply(s, Respond(t, reply));
            var active := s.tasks[t].active;
            if active == None then r == s
            else
              && Tables(r, s.tasks[t := s.tasks[t].(active := None, role := None)], s.objects, s.calls, s.inflight)
              && At(r, active.value, Finishing(t, reply, false))
  {
    if s.tasks[t].active.Some? { TakeTables(s, t, s.tasks[t].active.value, reply); }
    hide TakeActive, Tables, At;
  }

  lemma RemoveTables(s: State, c: CallId, t: TaskId, reply: Reply)
    requires At(s, c, Finishing(t, reply, false))
    ensures Tables(Move(s, c, Unheard(t, reply)), s.tasks, s.objects, s.calls, s.inflight)
    ensures Tables(Remove(s, c), s.tasks, s.objects, s.calls, s.inflight - {c})
    ensures At(Remove(s, c), c, Finishing(t, reply, true))
  {
  }

  /** The registration of a finished call ends. */
  lemma UnregisterDoes(s: State, c: CallId, t: TaskId, reply: Reply)
    requires c in s.calls && At(s, c, Finishing(t, reply, false))
    ensures Enabled(s, Unregister(c))
    ensures var r := Apply(s, Unregister(c));
            if c in s.inflight then
              Tables(r, s.tasks, s.objects, s.calls, s.inflight - {c}) && At(r, c, Finishing(t, reply, true))
            else Tables(r, s.tasks, s.objects, s.calls, s.inflight)
  {
    RemoveTables(s, c, t, reply);
    hide Move, Remove, Tables;
  }

  lemma PublishDoes(s: State, c: CallId, t: TaskId, reply: Reply)
    requires c in s.calls && At(s, c, Finishing(t, reply, true))
    ensures Enabled(s, Publish(c))
    ensures var state := if reply.Answered? then Replied else Cancelled';
            Tables(Apply(s, Publish(c)), s.tasks, s.objects,
                   s.calls[c := s.calls[c].(state := state, reply := Some(reply))], s.inflight)
  {
  }

  predicate Engaged(st: TaskState) {
    st.waiting || st.active.Some? || st.delivery.Some?
  }

  lemma BeginTables(s: State, t: TaskId, o: ObjectId)
    requires t in s.tasks && o in s.objects
    ensures var r := BeginWait(s, t, o);
            var kind := Some(s.objects[o].kind);
            && Tables(r, s.tasks[t := s.tasks[t].(waiting := true, waitKind := kind, role := kind)], s.objects, s.calls,
                      s.inflight)
            && t in r.doing && r.doing[t] == Begun(o) && Enabled(r, Park(t))
  {
  }

  /** A wait begins. */
  lemma BeginDoes(s: State, t: TaskId, o: ObjectId)
    requires Enabled(s, Begin(t, o))
    ensures t in s.tasks && o in s.objects
    ensures var r := Apply(s, Begin(t, o));
            var kind := Some(s.objects[o].kind);
            if Engaged(s.tasks[t]) then r == s
            else
              && Tables(r, s.tasks[t := s.tasks[t].(waiting := true, waitKind := kind, role := kind)], s.objects, s.calls,
                        s.inflight)
              && t in r.doing && r.doing[t] == Begun(o) && Enabled(r, Park(t))
  {
    BeginTables(s, t, o);
    hide BeginWait, Tables;
  }

  // ---- operations

  datatype WaitOutcome = Received | Parked | WaitFailed(error: ServiceError)

  datatype DeliverOutcome = Served | NotWaiting | NotWoken

  datatype InvokeOutcome = Handed(task: TaskId) | Waiting | InvokeFailed(error: ServiceError)

  class ServiceKernel {
    var tasks: map<TaskId, TaskState>
    var objects: map<ObjectId, UserObject>
    var calls: map<CallId, Call>
    var inflight: set<CallId>
    ghost var control: State

    /** The protocol state: the tables, with the control state and the past that `control` keeps. */
    ghost function Value(): State
      reads this
    {
      control.(tasks := tasks, objects := objects, calls := calls, inflight := inflight)
    }

    // ---- locked sections

    /** `begin_service_wait`. */
    method BeginServiceWait(t: TaskId, o: ObjectId) returns (ok: bool)
      requires Enabled(Value(), Begin(t, o))
      modifies this
      ensures Value() == Apply(old(Value()), Begin(t, o))
      ensures ok <==> var st := old(tasks)[t]; !st.waiting && st.active == None && st.delivery == None
    {
      ghost var s := Value();
      BeginDoes(s, t, o);
      hide Enabled, Apply;
      control := Apply(s, Begin(t, o));
      var st := tasks[t];
      if st.waiting || st.active.Some? || st.delivery.Some? { return false; }
      var kind := objects[o].kind;
      tasks := tasks[t := st.(waiting := true, waitKind := Some(kind), role := Some(kind))];
      ok := true;
    }

    /** The section of `wait` under the object lock: refuse, pop a pending call, or park. */
    method PopCallOrPark(t: TaskId, o: ObjectId) returns (popped: Option<CallId>, refused: bool)
      requires Enabled(Value(), Park(t)) && control.doing[t] == Begun(o)
      modifies this
      ensures Value() == Apply(old(Value()), Park(t))
      ensures var obj := old(objects)[o];
              refused == !obj.open && popped == if obj.open && obj.pending != [] then Some(obj.pending[0]) else None
    {
      ghost var s := Value();
      ParkDoes(s, t, o);
      hide Enabled, Apply;
      control := Apply(s, Park(t));
      popped, refused := None, false;
      var obj := objects[o];
      if !obj.open {
        refused := true;
        tasks := tasks[t := Abort(tasks[t], obj.kind)];
      } else if obj.pending == [] {
        objects := objects[o := obj.(waiters := obj.waiters + [t])];
      } else {
        popped := Some(obj.pending[0]);
        objects := objects[o := obj.(pending := obj.pending[1..])];
      }
    }

    /** The section of `queue_or_deliver_call` under the object lock: refuse, pop a waiter, or queue. */
    method PopWaiterOrQueue(c: CallId, o: ObjectId) returns (popped: Option<TaskId>, refused: bool)
      requires Enabled(Value(), Enter(c)) && control.place[c] == Entering(o)
      modifies this
      ensures Value() == Apply(old(Value()), Enter(c))
      ensures var obj := old(objects)[o];
              refused == !obj.open && popped == if obj.open && obj.waiters != [] then Some(obj.waiters[0]) else None
    {
      ghost var s := Value();
      EnterDoes(s, c, o);
      hide Enabled, Apply;
      control := Apply(s, Enter(c));
      popped, refused := None, false;
      var obj := objects[o];
      if !obj.open {
        refused := true;
      } else if obj.waiters == [] {
        objects := objects[o := obj.(pending := obj.pending + [c])];
      } else {
        popped := Some(obj.waiters[0]);
        objects := objects[o := obj.(waiters := obj.waiters[1..])];
      }
    }

    method RegisterCall(c: CallId)
      requires Enabled(Value(), Register(c))
      modifies this
      ensures Value() == Apply(old(Value()), Register(c))
    {
      control := Apply(Value(), Register(c));
      inflight := inflight + {c};
    }

    /** `activate_service_call`, with the removal from `inflight` when the task does not accept. */
    method ActivateServiceCall(c: CallId, t: TaskId, usrIp: nat) returns (ok: bool)
      requires Enabled(Value(), Activate(c)) && control.place[c].task == t && usrIp == objects[control.place[c].obj].usrIp
      modifies this
      ensures Value() == Apply(old(Value()), Activate(c)) && ok == Accepts(old(Value()), t)
    {
      ghost var s := Value();
      ActivateDoes(s, c, t, s.place[c].obj, s.place[c].byInvoker);
      hide Enabled, Apply;
      control := Apply(s, Activate(c));
      ok := t in tasks && tasks[t].waiting && tasks[t].waitKind.Some?;
      if ok {
        var what := Delivery(usrIp, calls[c].frame);
        tasks := tasks[t := tasks[t].(waiting := false, active := Some(c), delivery := Some(what), waitKind := None)];
      } else {
        inflight := inflight - {c};
      }
    }

    method MarkCallRunning(c: CallId)
      requires Enabled(Value(), MarkRunning(c))
      modifies this
      ensures Value() == Apply(old(Value()), MarkRunning(c))
    {
      control := Apply(Value(), MarkRunning(c));
      calls := calls[c := calls[c].(state := Running)];
    }

    /** The removal from `inflight` when the task cannot be woken. */
    method WithdrawCall(c: CallId)
      requires Enabled(Value(), Withdraw(c))
      modifies this
      ensures Value() == Apply(old(Value()), Withdraw(c))
    {
      control := Apply(Value(), Withdraw(c));
      inflight := inflight - {c};
    }

    /** `cancel_active_service_call`. */
    method CancelActiveServiceCall(t: TaskId, c: CallId)
      requires Enabled(Value(), Rollback(c)) && control.waking[c].task == t
      modifies this
      ensures Value() == Apply(old(Value()), Rollback(c))
    {
      ghost var s := Value();
      RollbackDoes(s, c, t);
      hide Enabled, Apply;
      control := Apply(s, Rollback(c));
      if t in tasks && tasks[t].active == Some(c) {
        tasks := tasks[t := tasks[t].(active := None, delivery := None, role := None, waitKind := None, waiting := false)];
      }
    }

    method TakeActiveServiceCall(t: TaskId, ghost reply: Reply) returns (taken: Option<CallId>)
      requires Enabled(Value(), Respond(t, reply))
      modifies this
      ensures Value() == Apply(old(Value()), Respond(t, reply)) && taken == old(tasks)[t].active
    {
      ghost var s := Value();
      RespondDoes(s, t, reply);
      hide Enabled, Apply;
      control := Apply(s, Respond(t, reply));
      var st := tasks[t];
      taken := st.active;
      if taken.Some? { tasks := tasks[t := st.(active := None, role := None)]; }
    }

    method RemoveInflight(c: CallId) returns (ok: bool)
      requires Enabled(Value(), Unregister(c))
      modifies this
      ensures Value() == Apply(old(Value()), Unregister(c)) && ok == (c in old(inflight))
    {
      ghost var s := Value();
      UnregisterDoes(s, c, s.place[c].task, s.place[c].reply);
      hide Enabled, Apply;
      control := Apply(s, Unregister(c));
      ok := c in inflight;
      if ok { inflight := inflight - {c}; }
    }

    /** `complete` and `cancel`: the reply decides which. */
    method PublishReply(c: CallId, reply: Reply)
      requires Enabled(Value(), Publish(c)) && control.place[c].reply == reply
      modifies this
      ensures Value() == Apply(old(Value()), Publish(c))
    {
      ghost var s := Value();
      PublishDoes(s, c, s.place[c].task, reply);
      hide Enabled, Apply;
      control := Apply(s, Publish(c));
      calls := calls[c := calls[c].(state := if reply.Answered? then Replied else Cancelled', reply := Some(reply))];
    }

    // ---- operations

    /**
     Register, activate, wake, mark. `wakes` is what the scheduler answers. The call is served by t on success; an
     invoker holds it again if t does not wait; it is taken back if t cannot be woken.
     */
    method DeliverToWaiter(t: TaskId, c: CallId, o: ObjectId, wakes: bool)
      returns (outcome: DeliverOutcome, ghost steps: seq<Step>)
      requires c in calls && c in control.place && control.place[c].Delivering? && !control.place[c].registered
      requires control.place[c].task == t && control.place[c].obj == o && o in objects
      modifies this
      ensures Follows(old(Value()), steps, Value())
      ensures objects == old(objects) && calls.Keys == old(calls).Keys
      ensures outcome == if !Accepts(old(Value()), t) then NotWaiting else if wakes then Served else NotWoken
      ensures outcome == Served ==> At(control, c, Serving(t)) && t in tasks && tasks[t].active == Some(c) && c in inflight
      ensures outcome == NotWaiting ==> At(control, c, if old(control.place)[c].byInvoker then Entering(o) else Lost)
      ensures outcome == NotWoken ==>
                && At(control, c, Withdrawn(t)) && tasks == old(tasks)[t := FRESH_TASK] && calls == old(calls)
                && c !in inflight && control.unwoken == old(control.unwoken)[c := old(control.place)[c].byInvoker]
    {
      hide Enabled, Apply, Follows;
      ghost var s := Value();
      ghost var byInvoker := s.place[c].byInvoker;
      FollowsNone(s);
      RegisterDoes(s, c);
      RegisterCall(c);
      FollowsThen(s, [], s, Register(c));
      steps := [] + [Register(c)];
      ghost var s1 := Value();
      ActivateDoes(s1, c, t, o, byInvoker);
      var ok := ActivateServiceCall(c, t, objects[o].usrIp);
      FollowsThen(s, steps, s1, Activate(c));
      steps := steps + [Activate(c)];
      if !ok { return NotWaiting, steps; }
      ghost var s2 := Value();
      WakeDoes(s2, c, Waking(t, byInvoker, false), Serving(t));
      if wakes {
        MarkCallRunning(c);
        FollowsThen(s, steps, s2, MarkRunning(c));
        steps := steps + [MarkRunning(c)];
        return Served, steps;
      }
      ghost var more := TakeCallBack(t, c);
      FollowsJoin(s, steps, s2, more, Value());
      steps := steps + more;
      outcome := NotWoken;
    }

    /** The task cannot be woken: undo the registration, then the activation. */
    method TakeCallBack(t: TaskId, c: CallId) returns (ghost steps: seq<Step>)
      requires Enabled(Value(), Withdraw(c)) && control.waking[c].task == t
      requires At(control, c, Serving(t)) && t in tasks && tasks[t].active == Some(c)
      modifies this
      ensures Follows(old(Value()), steps, Value())
      ensures Tables(Value(), old(tasks)[t := FRESH_TASK], old(objects), old(calls), old(inflight) - {c})
      ensures At(control, c, Withdrawn(t))
      ensures control.unwoken == old(control.unwoken)[c := old(control.waking)[c].byInvoker]
    {
      ghost var s := Value();
      WakeDoes(s, c, s.waking[c], Serving(t));
      hide Enabled, Apply, Follows;
      WithdrawCall(c);
      FollowsNone(s);
      FollowsThen(s, [], s, Withdraw(c));
      steps := [] + [Withdraw(c)];
      ghost var s1 := Value();
      RollbackDoes(s1, c, t);
      CancelActiveServiceCall(t, c);
      FollowsThen(s, steps, s1, Rollback(c));
      steps := steps + [Rollback(c)];
    }

    /** Hand the call to the longest-parked waiter that still accepts, or queue it. */
    method QueueOrDeliverCall(c: CallId, o: ObjectId, wakes: bool)
      returns (outcome: InvokeOutcome, ghost steps: seq<Step>)
      requires Enabled(Value(), Enter(c)) && control.place[c] == Entering(o)
      modifies this
      ensures Follows(old(Value()), steps, Value())
      ensures match outcome
              case Handed(t) => wakes && t in tasks && tasks[t].active == Some(c) && c in inflight
              case Waiting => o in objects && objects[o].pending == old(objects)[o].pending + [c] && objects[o].waiters == []
              case InvokeFailed(e) =>
                if !old(objects)[o].open then e == InvalidState
                else
                  && e == ServiceUnavailable && !wakes && c in control.place && control.place[c].Withdrawn?
                  && c in control.unwoken && control.unwoken[c]
      ensures var obj := old(objects)[o];
              obj.open && obj.waiters != [] && Accepts(old(Value()), obj.waiters[0]) ==>
                && outcome == (if wakes then Handed(obj.waiters[0]) else InvokeFailed(ServiceUnavailable))
                && o in objects && objects[o] == obj.(waiters := obj.waiters[1..])
    {
      hide Enabled, Apply, Follows;
      ghost var s := Value();
      var first := true;
      steps := [];
      FollowsNone(s);
      EnterDoes(s, c, o);
      while true
        invariant Enabled(Value(), Enter(c)) && At(control, c, Entering(o)) && o in objects
        invariant Follows(s, steps, Value())
        invariant objects[o].(waiters := []) == s.objects[o].(waiters := [])
        invariant first ==> Value() == s
        invariant !first ==> s.objects[o].waiters != [] && !Accepts(s, s.objects[o].waiters[0])
        decreases |objects[o].waiters|
      {
        ghost var m := Value();
        EnterDoes(m, c, o);
        var popped, refused := PopWaiterOrQueue(c, o);
        FollowsThen(s, steps, m, Enter(c));
        steps := steps + [Enter(c)];
        if refused { return InvokeFailed(InvalidState), steps; }
        if popped == None { return Waiting, steps; }
        ghost var n := Value();
        var sent, more := DeliverToWaiter(popped.value, c, o, wakes);
        FollowsJoin(s, steps, n, more, Value());
        steps := steps + more;
        match sent {
          case Served => return Handed(popped.value), steps;
          case NotWoken => return InvokeFailed(ServiceUnavailable), steps;
          case NotWaiting =>
            Retries(Value(), c, o);
            first := false;
        }
      }
    }

    /** Begin to wait; take the oldest pending call at once, or park. A call whose task cannot be woken is dropped. */
    method Wait(t: TaskId, o: ObjectId, wakes: bool) returns (outcome: WaitOutcome, ghost steps: seq<Step>)
      requires Enabled(Value(), Begin(t, o)) && (forall c | c in objects[o].pending :: c in calls)
      modifies this
      ensures Follows(old(Value()), steps, Value())
      ensures var st, obj := old(tasks)[t], old(objects)[o];
              if st.waiting || st.active.Some? || st.delivery.Some? || !obj.open then outcome == WaitFailed(InvalidState)
              else if obj.pending == [] then
                && outcome == Parked && o in objects && objects[o] == obj.(waiters := obj.waiters + [t])
                && t in tasks && tasks[t] == st.(waiting := true, waitKind := Some(obj.kind), role := Some(obj.kind))
              else
                && o in objects && objects[o] == obj.(pending := obj.pending[1..])
                && var c := obj.pending[0];
                   if wakes then outcome == Received && t in tasks && tasks[t].active == Some(c)
                   else
                     && outcome == WaitFailed(ServiceUnavailable) && t in tasks && tasks[t] == FRESH_TASK
                     && At(control, c, Withdrawn(t)) && c !in inflight && calls == old(calls)
                     && c in control.unwoken && !control.unwoken[c]
    {
      hide Enabled, Apply, Follows;
      ghost var s := Value();
      BeginDoes(s, t, o);
      var ok := BeginServiceWait(t, o);
      FollowsNone(s);
      FollowsThen(s, [], s, Begin(t, o));
      steps := [] + [Begin(t, o)];
      if !ok { return WaitFailed(InvalidState), steps; }
      ghost var m := Value();
      ParkDoes(m, t, o);
      var popped, refused := PopCallOrPark(t, o);
      FollowsThen(s, steps, m, Park(t));
      steps := steps + [Park(t)];
      if refused { return WaitFailed(InvalidState), steps; }
      if popped == None { return Parked, steps; }
      ghost var n := Value();
      var sent, more := DeliverToWaiter(t, popped.value, o, wakes);
      FollowsJoin(s, steps, n, more, Value());
      steps := steps + more;
      if sent == Served { return Received, steps; }
      // The task no longer waits, so the `abort_service_wait` that follows finds nothing to abort.
      assert Abort(tasks[t], objects[o].kind) == tasks[t];
      outcome := WaitFailed(ServiceUnavailable);
    }

    /** Take the task's active call, remove it from the in-flight table, publish the reply. */
    method CompleteCurrentCall(t: TaskId, reply: Reply) returns (ok: bool, ghost steps: seq<Step>)
      requires Enabled(Value(), Respond(t, reply))
      requires tasks[t].active.Some? ==> tasks[t].active.value in calls
      modifies this
      ensures Follows(old(Value()), steps, Value())
      ensures var active := old(tasks)[t].active;
              && ok == (active.Some? && active.value in old(inflight))
              && (ok ==> active.value in calls && calls[active.value].reply == Some(reply))
              && (ok ==> inflight == old(inflight) - {active.value})
              && (!ok ==> calls == old(calls))
    {
      hide Enabled, Apply, Follows;
      ghost var s := Value();
      RespondDoes(s, t, reply);
      var taken := TakeActiveServiceCall(t, reply);
      FollowsNone(s);
      FollowsThen(s, [], s, Respond(t, reply));
      steps := [] + [Respond(t, reply)];
      if taken == None { return false, steps; }
      var c := taken.value;
      ghost var m := Value();
      UnregisterDoes(m, c, t, reply);
      ok := RemoveInflight(c);
      FollowsThen(s, steps, m, Unregister(c));
      steps := steps + [Unregister(c)];
      if ok {
        ghost var n := Value();
        PublishDoes(n, c, t, reply);
        PublishReply(c, reply);
        FollowsThen(s, steps, n, Publish(c));
        steps := steps + [Publish(c)];
      }
    }
  }

  lemma FollowsNone(s: State)
    ensures Follows(s, [], s)
  {
  }

  lemma Retries(s: State, c: CallId, o: ObjectId)
    requires c in s.calls && At(s, c, Entering(o)) && o in s.objects
    ensures Enabled(s, Enter(c))
  {
  }
}
