/** What every interleaving of the service protocol keeps. */
module ServiceInvariant {
  import opened Prelude
  import opened ServiceProtocol

  /** The only histories a call can have, by how far it has got: one delivery, one answer, one publication. */
  predicate HistoryFits(h: seq<Event>, frame: seq<nat>, p: Place) {
    match p
    case Serving(t) => |h| == 1 && DeliveredTo(h, t, frame)
    case Finishing(t, r, _) => |h| == 2 && DeliveredTo(h, t, frame) && h[1] == Answer(t, r)
    case Withdrawn(t) => |h| == 1 && DeliveredTo(h, t, frame)
    case Unheard(t, r) => |h| == 2 && DeliveredTo(h, t, frame) && h[1] == Answer(t, r)
    case Finished(t, r) => |h| == 3 && DeliveredTo(h, t, frame) && h[1] == Answer(t, r) && h[2] == Published(r)
    case _ => h == []
  }

  predicate DeliveredTo(h: seq<Event>, t: TaskId, frame: seq<nat>) {
    |h| >= 1 && h[0].Delivered? && h[0].task == t && h[0].what.frame == frame
  }

  // ---- invariant

  /** A task has been armed with the call. */
  predicate Armed(p: Place, t: TaskId) {
    (p.Serving? || p.Finishing? || p.Finished? || p.Withdrawn? || p.Unheard?) && p.task == t
  }

  /** A thread that is waking a task for c, and whether it has failed to. */
  predicate WakingInv(s: State, c: CallId) {
    c in s.waking ==>
      c in s.place && Armed(s.place[c], s.waking[c].task) && (s.waking[c].failed <==> c in s.unwoken)
  }

  ghost predicate CallInv(s: State, c: CallId)
    requires c in s.calls
  {
    && c in s.place
    && HistoryFits(Past(s.history, c), s.calls[c].frame, s.place[c])
    && (s.calls[c].reply.Some? <==> s.place[c].Finished?)
    && WakingInv(s, c)
    && match s.place[c]
       case Entering(o) => o in s.objects && c !in s.inflight && c !in s.unwoken
       case Queued(o) => o in s.objects && c in s.objects[o].pending && c !in s.inflight && c !in s.unwoken
       case Delivering(t, o, registered, _) =>
         && o in s.objects && t in s.doing && s.doing[t] == Receiving(c) && c !in s.unwoken
         && (c in s.inflight <==> registered)
       case Serving(t) =>
         && t in s.tasks && s.tasks[t].active == Some(c)
         && (c in s.inflight <==> c !in s.unwoken) && (c in s.unwoken ==> c in s.waking)
       case Finishing(t, r, removed) => c in s.inflight <==> !removed && c !in s.unwoken
       case Finished(t, r) => s.calls[c].reply == Some(r) && c !in s.inflight
       case Refused => c !in s.inflight && c !in s.unwoken
       case Withdrawn(_) => c !in s.inflight && c in s.unwoken
       case Unheard(_, _) => c !in s.inflight && c in s.unwoken
       case Lost => false
  }

  ghost predicate TaskInv(s: State, t: TaskId)
    requires t in s.tasks
  {
    var st := s.tasks[t];
    && t in s.doing
    && (st.waiting <==> s.doing[t] != Idle)
    && (st.waitKind.Some? <==> st.waiting)
    && (st.active.Some? ==>
          !st.waiting && st.active.value in s.calls && st.active.value in s.place
          && s.place[st.active.value] == Serving(t))
    && match s.doing[t]
       case Idle => true
       case Begun(o) => o in s.objects && st.waitKind == Some(s.objects[o].kind)
       case ParkedAt(o) => o in s.objects && t in s.objects[o].waiters
       case Receiving(c) =>
         c in s.calls && c in s.place && s.place[c].Delivering? && s.place[c].task == t
  }

  ghost predicate ObjectInv(s: State, o: ObjectId)
    requires o in s.objects
  {
    var obj := s.objects[o];
    && (obj.waiters == [] || obj.pending == [])
    && NoDup(obj.waiters) && NoDup(obj.pending)
    && (forall c | c in obj.pending :: c in s.calls && c in s.place && s.place[c] == Queued(o))
    && (forall t | t in obj.waiters :: t in s.tasks && t in s.doing && s.doing[t] == ParkedAt(o))
    && Past(s.submitted, o) == Past(s.handed, o) + obj.pending
  }

  /** Nothing is known about calls and objects that do not exist yet. */
  ghost predicate Unborn(s: State) {
    && (forall c | c in s.inflight || c in s.place || c in s.waking || c in s.unwoken :: c in s.calls)
    && (forall t | t in s.doing :: t in s.tasks)
    && (forall c | c in s.history :: c in s.calls)
    && (forall o | o in s.submitted || o in s.handed :: o in s.objects)
  }

  ghost predicate Inv(s: State) {
    && Unborn(s)
    && (forall c {:trigger CallInv(s, c)} | c in s.calls :: CallInv(s, c))
    && (forall t {:trigger TaskInv(s, t)} | t in s.tasks :: TaskInv(s, t))
    && (forall o {:trigger ObjectInv(s, o)} | o in s.objects :: ObjectInv(s, o))
  }

  // ---- what a step leaves alone

  predicate SameWaking(s: State, r: State, x: CallId) {
    && (x in r.unwoken <==> x in s.unwoken) && (x in r.waking <==> x in s.waking)
    && (x in s.waking ==> r.waking[x] == s.waking[x])
  }

  /** Everything `CallInv` says about x reads the same in r as in s. */
  ghost predicate CallFrame(s: State, r: State, x: CallId)
    requires x in s.calls
  {
    && x in r.calls && x in s.place && x in r.place && r.place[x] == s.place[x]
    && r.calls[x].reply == s.calls[x].reply && r.calls[x].frame == s.calls[x].frame
    && Past(r.history, x) == Past(s.history, x)
    && (x in r.inflight <==> x in s.inflight) && SameWaking(s, r, x)
    && match s.place[x]
       case Entering(o) => o in r.objects
       case Queued(o) => o in r.objects && x in r.objects[o].pending
       case Delivering(t, o, _, _) => o in r.objects && t in r.doing && t in s.doing && r.doing[t] == s.doing[t]
       case Serving(t) => t in r.tasks && t in s.tasks && r.tasks[t].active == s.tasks[t].active
       case _ => true
  }

  ghost predicate TaskFrame(s: State, r: State, x: TaskId)
    requires x in s.tasks
  {
    && x in r.tasks && r.tasks[x].(delivery := None) == s.tasks[x].(delivery := None)
    && x in s.doing && x in r.doing && r.doing[x] == s.doing[x]
    && (s.tasks[x].active.Some? ==>
          var c := s.tasks[x].active.value;
          c in r.calls && c in r.place && c in s.place && r.place[c] == s.place[c])
    && match s.doing[x]
       case Idle => true
       case Begun(o) => o in s.objects && o in r.objects && r.objects[o].kind == s.objects[o].kind
       case ParkedAt(o) => o in r.objects && x in r.objects[o].waiters
       case Receiving(c) => c in r.calls && c in r.place && c in s.place && (r.place[c] == s.place[c] ||
                              (r.place[c].Delivering? && r.place[c].task == x))
  }

  ghost predicate ObjectFrame(s: State, r: State, x: ObjectId)
    requires x in s.objects
  {
    && x in r.objects && r.objects[x].(open := true) == s.objects[x].(open := true)
    && Past(r.submitted, x) == Past(s.submitted, x) && Past(r.handed, x) == Past(s.handed, x)
    && (forall c | c in s.objects[x].pending :: c in r.calls && c in r.place && c in s.place && r.place[c] == s.place[c])
    && (forall t | t in s.objects[x].waiters :: t in r.tasks && t in r.doing && t in s.doing && r.doing[t] == s.doing[t])
  }

  ghost predicate CallsKept(s: State, r: State) {
    forall x {:trigger CallInv(r, x)} | x in r.calls :: CallInv(r, x) || (x in s.calls && CallFrame(s, r, x))
  }

  ghost predicate TasksKept(s: State, r: State) {
    forall x {:trigger TaskInv(r, x)} | x in r.tasks :: TaskInv(r, x) || (x in s.tasks && TaskFrame(s, r, x))
  }

  ghost predicate ObjectsKept(s: State, r: State) {
    forall x {:trigger ObjectInv(r, x)} | x in r.objects :: ObjectInv(r, x) || (x in s.objects && ObjectFrame(s, r, x))
  }

  lemma CallKept(s: State, r: State, x: CallId)
    requires x in s.calls && CallInv(s, x) && CallFrame(s, r, x)
    ensures CallInv(r, x)
  {
  }

  lemma TaskKept(s: State, r: State, x: TaskId)
    requires x in s.tasks && TaskInv(s, x) && TaskFrame(s, r, x)
    ensures TaskInv(r, x)
  {
  }

  lemma ObjectKept(s: State, r: State, x: ObjectId)
    requires x in s.objects && ObjectInv(s, x) && ObjectFrame(s, r, x)
    ensures ObjectInv(r, x)
  {
  }

  lemma Rebuild(s: State, r: State)
    requires Inv(s) && Unborn(r) && CallsKept(s, r) && TasksKept(s, r) && ObjectsKept(s, r)
    ensures Inv(r)
  {
    hide CallInv, TaskInv, ObjectInv, CallFrame, TaskFrame, ObjectFrame, Unborn;
    forall x | x in r.calls ensures CallInv(r, x) {
      if !CallInv(r, x) { assert CallInv(s, x); CallKept(s, r, x); }
    }
    forall x | x in r.tasks ensures TaskInv(r, x) {
      if !TaskInv(r, x) { assert TaskInv(s, x); TaskKept(s, r, x); }
    }
    forall x | x in r.objects ensures ObjectInv(r, x) {
      if !ObjectInv(r, x) { assert ObjectInv(s, x); ObjectKept(s, r, x); }
    }
  }

  // ---- preservation, section by section

  /** A call in hand may be queued at o. */
  ghost predicate AtDoor(s: State, c: CallId, o: ObjectId) {
    && c in s.calls && c in s.place && s.place[c] == Entering(o) && CallInv(s, c)
    && o in s.objects && ObjectInv(s, o)
  }

  lemma QueueCallKept(s: State, c: CallId, o: ObjectId, x: CallId)
    requires AtDoor(s, c, o) && x in s.calls && CallInv(s, x)
    ensures var r := QueueCall(s, c, o); if x == c then CallInv(r, x) else CallFrame(s, r, x)
  {
    assert QueueCall(s, c, o).objects[o].pending[|s.objects[o].pending|] == c;
  }

  lemma QueueTaskKept(s: State, c: CallId, o: ObjectId, x: TaskId)
    requires AtDoor(s, c, o) && x in s.tasks && TaskInv(s, x)
    ensures TaskFrame(s, QueueCall(s, c, o), x)
  {
  }

  lemma QueueObjectKept(s: State, c: CallId, o: ObjectId, x: ObjectId)
    requires AtDoor(s, c, o) && s.objects[o].waiters == [] && x in s.objects && ObjectInv(s, x)
    ensures var r := QueueCall(s, c, o); if x == o then ObjectInv(r, x) else ObjectFrame(s, r, x)
  {
    hide CallInv;
    if x == o { QueueHolds(s.objects[o].pending, c); }
  }

  lemma QueueHolds(q: seq<CallId>, c: CallId)
    requires NoDup(q)
    ensures forall d :: d in q + [c] <==> d in q || d == c
    ensures c !in q ==> NoDup(q + [c])
  {
  }

  lemma QueueInv(s: State, c: CallId, o: ObjectId)
    requires Inv(s) && AtDoor(s, c, o) && s.objects[o].waiters == []
    ensures Inv(QueueCall(s, c, o))
  {
    hide CallInv, TaskInv, ObjectInv, CallFrame, TaskFrame, ObjectFrame;
    var r := QueueCall(s, c, o);
    assert CallsKept(s, r) by {
      forall x | x in r.calls ensures CallInv(r, x) || CallFrame(s, r, x) {
        assert CallInv(s, x);
        QueueCallKept(s, c, o, x);
      }
    }
    assert TasksKept(s, r) by {
      forall x | x in r.tasks ensures TaskInv(r, x) || TaskFrame(s, r, x) {
        assert TaskInv(s, x);
        QueueTaskKept(s, c, o, x);
      }
    }
    assert ObjectsKept(s, r) by {
      forall x | x in r.objects ensures ObjectInv(r, x) || ObjectFrame(s, r, x) {
        assert ObjectInv(s, x);
        QueueObjectKept(s, c, o, x);
      }
    }
    Rebuild(s, r);
  }

  lemma MatchWaiterCallKept(s: State, c: CallId, o: ObjectId, x: CallId)
    requires AtDoor(s, c, o) && s.objects[o].waiters != [] && x in s.calls && CallInv(s, x)
    ensures var r := MatchWaiter(s, c, o); if x == c then CallInv(r, x) else CallFrame(s, r, x)
  {
    assert s.objects[o].waiters[0] in s.objects[o].waiters;
  }

  lemma MatchWaiterTaskKept(s: State, c: CallId, o: ObjectId, x: TaskId)
    requires AtDoor(s, c, o) && s.objects[o].waiters != [] && x in s.tasks && TaskInv(s, x)
    ensures var r := MatchWaiter(s, c, o); if x == s.objects[o].waiters[0] then TaskInv(r, x) else TaskFrame(s, r, x)
  {
    assert s.objects[o].waiters[0] in s.objects[o].waiters;
  }

  lemma MatchWaiterObjectKept(s: State, c: CallId, o: ObjectId, x: ObjectId)
    requires AtDoor(s, c, o) && s.objects[o].waiters != [] && x in s.objects && ObjectInv(s, x)
    ensures var r := MatchWaiter(s, c, o); if x == o then ObjectInv(r, x) else ObjectFrame(s, r, x)
  {
    assert s.objects[o].waiters[0] in s.objects[o].waiters;
  }

  lemma MatchWaiterInv(s: State, c: CallId, o: ObjectId)
    requires Inv(s) && AtDoor(s, c, o) && s.objects[o].waiters != []
    ensures Inv(MatchWaiter(s, c, o))
  {
    assert s.objects[o].waiters[0] in s.tasks by { assert s.objects[o].waiters[0] in s.objects[o].waiters; }
    hide CallInv, TaskInv, ObjectInv, CallFrame, TaskFrame, ObjectFrame;
    var r := MatchWaiter(s, c, o);
    assert CallsKept(s, r) by {
      forall x | x in r.calls ensures CallInv(r, x) || CallFrame(s, r, x) {
        assert CallInv(s, x);
        MatchWaiterCallKept(s, c, o, x);
      }
    }
    assert TasksKept(s, r) by {
      forall x | x in r.tasks ensures TaskInv(r, x) || TaskFrame(s, r, x) {
        assert TaskInv(s, x);
        MatchWaiterTaskKept(s, c, o, x);
      }
    }
    assert ObjectsKept(s, r) by {
      forall x | x in r.objects ensures ObjectInv(r, x) || ObjectFrame(s, r, x) {
        assert ObjectInv(s, x);
        MatchWaiterObjectKept(s, c, o, x);
      }
    }
    Rebuild(s, r);
  }

  /** A task that has begun to wait is about to look at the queue of o. */
  ghost predicate AtCounter(s: State, t: TaskId, o: ObjectId) {
    && t in s.tasks && t in s.doing && s.doing[t] == Begun(o) && TaskInv(s, t)
    && o in s.objects && ObjectInv(s, o)
  }

  lemma ParkTaskCallKept(s: State, t: TaskId, o: ObjectId, x: CallId)
    requires AtCounter(s, t, o) && s.objects[o].pending == [] && x in s.calls && CallInv(s, x)
    ensures CallFrame(s, ParkTask(s, t, o), x)
  {
  }

  lemma ParkTaskTaskKept(s: State, t: TaskId, o: ObjectId, x: TaskId)
    requires AtCounter(s, t, o) && s.objects[o].pending == [] && x in s.tasks && TaskInv(s, x)
    ensures var r := ParkTask(s, t, o); if x == t then TaskInv(r, x) else TaskFrame(s, r, x)
  {
    assert ParkTask(s, t, o).objects[o].waiters[|s.objects[o].waiters|] == t;
  }

  lemma ParkTaskObjectKept(s: State, t: TaskId, o: ObjectId, x: ObjectId)
    requires AtCounter(s, t, o) && s.objects[o].pending == [] && x in s.objects && ObjectInv(s, x)
    ensures var r := ParkTask(s, t, o); if x == o then ObjectInv(r, x) else ObjectFrame(s, r, x)
  {
  }

  lemma ParkTaskInv(s: State, t: TaskId, o: ObjectId)
    requires Inv(s) && AtCounter(s, t, o) && s.objects[o].pending == []
    ensures Inv(ParkTask(s, t, o))
  {
    hide CallInv, TaskInv, ObjectInv, CallFrame, TaskFrame, ObjectFrame;
    var r := ParkTask(s, t, o);
    assert CallsKept(s, r) by {
      forall x | x in r.calls ensures CallInv(r, x) || CallFrame(s, r, x) {
        assert CallInv(s, x);
        ParkTaskCallKept(s, t, o, x);
      }
    }
    assert TasksKept(s, r) by {
      forall x | x in r.tasks ensures TaskInv(r, x) || TaskFrame(s, r, x) {
        assert TaskInv(s, x);
        ParkTaskTaskKept(s, t, o, x);
      }
    }
    assert ObjectsKept(s, r) by {
      forall x | x in r.objects ensures ObjectInv(r, x) || ObjectFrame(s, r, x) {
        assert ObjectInv(s, x);
        ParkTaskObjectKept(s, t, o, x);
      }
    }
    Rebuild(s, r);
  }

  /** The task is at the counter and the oldest pending call is sound. */
  ghost predicate CallAwaits(s: State, t: TaskId, o: ObjectId) {
    && AtCounter(s, t, o) && s.objects[o].pending != []
    && s.objects[o].pending[0] in s.calls && CallInv(s, s.objects[o].pending[0])
  }

  lemma MatchCallCallKept(s: State, t: TaskId, o: ObjectId, x: CallId)
    requires CallAwaits(s, t, o) && x in s.calls && CallInv(s, x)
    ensures var r := MatchCall(s, t, o); if x == s.objects[o].pending[0] then CallInv(r, x) else CallFrame(s, r, x)
  {
    assert s.objects[o].pending[0] in s.objects[o].pending;
  }

  lemma MatchCallTaskKept(s: State, t: TaskId, o: ObjectId, x: TaskId)
    requires CallAwaits(s, t, o) && x in s.tasks && TaskInv(s, x)
    ensures var r := MatchCall(s, t, o); if x == t then TaskInv(r, x) else TaskFrame(s, r, x)
  {
    assert s.objects[o].pending[0] in s.objects[o].pending;
  }

  lemma MatchCallObjectKept(s: State, t: TaskId, o: ObjectId, x: ObjectId)
    requires CallAwaits(s, t, o) && x in s.objects && ObjectInv(s, x)
    ensures var r := MatchCall(s, t, o); if x == o then ObjectInv(r, x) else ObjectFrame(s, r, x)
  {
    assert s.objects[o].pending[0] in s.objects[o].pending;
    var r := MatchCall(s, t, o);
    assert r.handed[o] + r.objects[o].pending == Past(s.handed, o) + s.objects[o].pending;
  }

  lemma MatchCallInv(s: State, t: TaskId, o: ObjectId)
    requires Inv(s) && CallAwaits(s, t, o)
    ensures Inv(MatchCall(s, t, o))
  {
    hide CallInv, TaskInv, ObjectInv, CallFrame, TaskFrame, ObjectFrame;
    var r := MatchCall(s, t, o);
    assert CallsKept(s, r) by {
      forall x | x in r.calls ensures CallInv(r, x) || CallFrame(s, r, x) {
        assert CallInv(s, x);
        MatchCallCallKept(s, t, o, x);
      }
    }
    assert TasksKept(s, r) by {
      forall x | x in r.tasks ensures TaskInv(r, x) || TaskFrame(s, r, x) {
        assert TaskInv(s, x);
        MatchCallTaskKept(s, t, o, x);
      }
    }
    assert ObjectsKept(s, r) by {
      forall x | x in r.objects ensures ObjectInv(r, x) || ObjectFrame(s, r, x) {
        assert ObjectInv(s, x);
        MatchCallObjectKept(s, t, o, x);
      }
    }
    Rebuild(s, r);
  }

  /** A waiter that was popped for a call is still waiting, so delivery is never refused. */
  lemma DeliveryAccepted(s: State, c: CallId)
    requires Inv(s) && c in s.calls && c in s.place && s.place[c].Delivering?
    ensures Accepts(s, s.place[c].task)
  {
    assert CallInv(s, c);
    assert TaskInv(s, s.place[c].task);
  }

  ghost predicate Registered(s: State, c: CallId, t: TaskId) {
    && c in s.calls && c in s.place && CallInv(s, c)
    && s.place[c].Delivering? && s.place[c].registered && s.place[c].task == t
    && t in s.tasks && TaskInv(s, t)
  }

  lemma ArmCallKept(s: State, c: CallId, t: TaskId, what: Delivery, told: bool, x: CallId)
    requires Registered(s, c, t) && what.frame == s.calls[c].frame && x in s.calls && CallInv(s, x)
    ensures var r := Arm(s, c, t, what, told); if x == c then CallInv(r, x) else CallFrame(s, r, x)
  {
  }

  lemma ArmTaskKept(s: State, c: CallId, t: TaskId, what: Delivery, told: bool, x: TaskId)
    requires Registered(s, c, t) && what.frame == s.calls[c].frame && x in s.tasks && TaskInv(s, x)
    ensures var r := Arm(s, c, t, what, told); if x == t then TaskInv(r, x) else TaskFrame(s, r, x)
  {
  }

  lemma ArmObjectKept(s: State, c: CallId, t: TaskId, what: Delivery, told: bool, x: ObjectId)
    requires Registered(s, c, t) && what.frame == s.calls[c].frame && x in s.objects && ObjectInv(s, x)
    ensures ObjectFrame(s, Arm(s, c, t, what, told), x)
  {
  }

  lemma ArmInv(s: State, c: CallId, t: TaskId, what: Delivery, told: bool)
    requires Inv(s) && Registered(s, c, t) && what.frame == s.calls[c].frame
    ensures Inv(Arm(s, c, t, what, told))
  {
    hide CallInv, TaskInv, ObjectInv, CallFrame, TaskFrame, ObjectFrame;
    var r := Arm(s, c, t, what, told);
    assert CallsKept(s, r) by {
      forall x | x in r.calls ensures CallInv(r, x) || CallFrame(s, r, x) {
        assert CallInv(s, x);
        ArmCallKept(s, c, t, what, told, x);
      }
    }
    assert TasksKept(s, r) by {
      forall x | x in r.tasks ensures TaskInv(r, x) || TaskFrame(s, r, x) {
        assert TaskInv(s, x);
        ArmTaskKept(s, c, t, what, told, x);
      }
    }
    assert ObjectsKept(s, r) by {
      forall x | x in r.objects ensures ObjectInv(r, x) || ObjectFrame(s, r, x) {
        assert ObjectInv(s, x);
        ArmObjectKept(s, c, t, what, told, x);
      }
    }
    Rebuild(s, r);
  }

  ghost predicate Busy(s: State, t: TaskId, c: CallId) {
    && t in s.tasks && t in s.doing && s.doing[t] == Idle && TaskInv(s, t)
    && s.tasks[t].active == Some(c) && c in s.calls && CallInv(s, c)
  }

  lemma RespondCallKept(s: State, t: TaskId, c: CallId, reply: Reply, x: CallId)
    requires Busy(s, t, c) && x in s.calls && CallInv(s, x)
    ensures var r := TakeActive(s, t, c, reply); if x == c then CallInv(r, x) else CallFrame(s, r, x)
  {
  }

  lemma RespondTaskKept(s: State, t: TaskId, c: CallId, reply: Reply, x: TaskId)
    requires Busy(s, t, c) && x in s.tasks && TaskInv(s, x)
    ensures var r := TakeActive(s, t, c, reply); if x == t then TaskInv(r, x) else TaskFrame(s, r, x)
  {
  }

  lemma RespondObjectKept(s: State, t: TaskId, c: CallId, reply: Reply, x: ObjectId)
    requires Busy(s, t, c) && x in s.objects && ObjectInv(s, x)
    ensures ObjectFrame(s, TakeActive(s, t, c, reply), x)
  {
  }

  lemma RespondInv(s: State, t: TaskId, c: CallId, reply: Reply)
    requires Inv(s) && Busy(s, t, c)
    ensures Inv(RespondStep(s, t, reply))
  {
    hide CallInv, TaskInv, ObjectInv, CallFrame, TaskFrame, ObjectFrame;
    var r := TakeActive(s, t, c, reply);
    assert CallsKept(s, r) by {
      forall x | x in r.calls ensures CallInv(r, x) || CallFrame(s, r, x) {
        assert CallInv(s, x);
        RespondCallKept(s, t, c, reply, x);
      }
    }
    assert TasksKept(s, r) by {
      forall x | x in r.tasks ensures TaskInv(r, x) || TaskFrame(s, r, x) {
        assert TaskInv(s, x);
        RespondTaskKept(s, t, c, reply, x);
      }
    }
    assert ObjectsKept(s, r) by {
      forall x | x in r.objects ensures ObjectInv(r, x) || ObjectFrame(s, r, x) {
        assert ObjectInv(s, x);
        RespondObjectKept(s, t, c, reply, x);
      }
    }
    Rebuild(s, r);
  }

  /** The task that could not be woken still serves the call. */
  ghost predicate Unwoken(s: State, c: CallId, t: TaskId) {
    && Enabled(s, Rollback(c)) && CallInv(s, c) && s.waking[c].task == t
    && t in s.tasks && TaskInv(s, t) && s.tasks[t].active == Some(c)
  }

  lemma TakeBackCallKept(s: State, c: CallId, t: TaskId, x: CallId)
    requires Unwoken(s, c, t) && x in s.calls && CallInv(s, x)
    ensures var r := TakeBack(s, c, t); if x == c then CallInv(r, x) else CallFrame(s, r, x)
  {
  }

  lemma TakeBackTaskKept(s: State, c: CallId, t: TaskId, x: TaskId)
    requires Unwoken(s, c, t) && x in s.tasks && TaskInv(s, x)
    ensures var r := TakeBack(s, c, t); if x == t then TaskInv(r, x) else TaskFrame(s, r, x)
  {
  }

  lemma TakeBackObjectKept(s: State, c: CallId, t: TaskId, x: ObjectId)
    requires Unwoken(s, c, t) && x in s.objects && ObjectInv(s, x)
    ensures ObjectFrame(s, TakeBack(s, c, t), x)
  {
  }

  lemma TakeBackInv(s: State, c: CallId, t: TaskId)
    requires Inv(s) && Unwoken(s, c, t)
    ensures Inv(TakeBack(s, c, t))
  {
    hide CallInv, TaskInv, ObjectInv, CallFrame, TaskFrame, ObjectFrame;
    var r := TakeBack(s, c, t);
    assert CallsKept(s, r) by {
      forall x | x in r.calls ensures CallInv(r, x) || CallFrame(s, r, x) {
        assert CallInv(s, x);
        TakeBackCallKept(s, c, t, x);
      }
    }
    assert TasksKept(s, r) by {
      forall x | x in r.tasks ensures TaskInv(r, x) || TaskFrame(s, r, x) {
        assert TaskInv(s, x);
        TakeBackTaskKept(s, c, t, x);
      }
    }
    assert ObjectsKept(s, r) by {
      forall x | x in r.objects ensures ObjectInv(r, x) || ObjectFrame(s, r, x) {
        assert ObjectInv(s, x);
        TakeBackObjectKept(s, c, t, x);
      }
    }
    Rebuild(s, r);
  }

  lemma DropCallKept(s: State, t: TaskId, c: CallId, x: CallId)
    requires Busy(s, t, c) && x in s.calls && CallInv(s, x)
    ensures var r := DropStep(s, t); if x == c then CallInv(r, x) else CallFrame(s, r, x)
  {
  }

  lemma DropTaskKept(s: State, t: TaskId, c: CallId, x: TaskId)
    requires Busy(s, t, c) && x in s.tasks && TaskInv(s, x) && x != t
    ensures TaskFrame(s, DropStep(s, t), x)
  {
  }

  lemma DropObjectKept(s: State, t: TaskId, c: CallId, x: ObjectId)
    requires Busy(s, t, c) && x in s.objects && ObjectInv(s, x)
    ensures ObjectFrame(s, DropStep(s, t), x)
  {
  }

  lemma DropInv(s: State, t: TaskId, c: CallId)
    requires Inv(s) && Busy(s, t, c)
    ensures Inv(DropStep(s, t))
  {
    hide CallInv, TaskInv, ObjectInv, CallFrame, TaskFrame, ObjectFrame;
    var r := DropStep(s, t);
    assert CallsKept(s, r) by {
      forall x | x in r.calls ensures CallInv(r, x) || CallFrame(s, r, x) {
        assert CallInv(s, x);
        DropCallKept(s, t, c, x);
      }
    }
    assert TasksKept(s, r) by {
      forall x | x in r.tasks ensures TaskInv(r, x) || TaskFrame(s, r, x) {
        assert TaskInv(s, x);
        DropTaskKept(s, t, c, x);
      }
    }
    assert ObjectsKept(s, r) by {
      forall x | x in r.objects ensures ObjectInv(r, x) || ObjectFrame(s, r, x) {
        assert ObjectInv(s, x);
        DropObjectKept(s, t, c, x);
      }
    }
    Rebuild(s, r);
  }

  lemma PublishCallKept(s: State, c: CallId, x: CallId)
    requires Enabled(s, Publish(c)) && CallInv(s, c) && x in s.calls && CallInv(s, x)
    ensures var r := PublishStep(s, c); if x == c then CallInv(r, x) else CallFrame(s, r, x)
  {
  }

  lemma PublishTaskKept(s: State, c: CallId, x: TaskId)
    requires Enabled(s, Publish(c)) && CallInv(s, c) && x in s.tasks && TaskInv(s, x)
    ensures TaskFrame(s, PublishStep(s, c), x)
  {
  }

  lemma PublishObjectKept(s: State, c: CallId, x: ObjectId)
    requires Enabled(s, Publish(c)) && CallInv(s, c) && x in s.objects && ObjectInv(s, x)
    ensures ObjectFrame(s, PublishStep(s, c), x)
  {
  }

  lemma PublishInv(s: State, c: CallId)
    requires Inv(s) && Enabled(s, Publish(c)) && CallInv(s, c)
    ensures Inv(PublishStep(s, c))
  {
    hide CallInv, TaskInv, ObjectInv, CallFrame, TaskFrame, ObjectFrame;
    var r := PublishStep(s, c);
    assert CallsKept(s, r) by {
      forall x | x in r.calls ensures CallInv(r, x) || CallFrame(s, r, x) {
        assert CallInv(s, x);
        PublishCallKept(s, c, x);
      }
    }
    assert TasksKept(s, r) by {
      forall x | x in r.tasks ensures TaskInv(r, x) || TaskFrame(s, r, x) {
        assert TaskInv(s, x);
        PublishTaskKept(s, c, x);
      }
    }
    assert ObjectsKept(s, r) by {
      forall x | x in r.objects ensures ObjectInv(r, x) || ObjectFrame(s, r, x) {
        assert ObjectInv(s, x);
        PublishObjectKept(s, c, x);
      }
    }
    Rebuild(s, r);
  }

  // ---- sections that touch one component only

  /** One task changes, in no queue and holding no call that changes hands. */
  lemma OneTaskInv(s: State, r: State, t: TaskId)
    requires Inv(s) && r == s.(tasks := r.tasks, doing := r.doing) && r.tasks.Keys == r.doing.Keys
    requires forall x | x != t :: (x in r.tasks <==> x in s.tasks) && (x in s.tasks ==> r.tasks[x] == s.tasks[x])
    requires forall x | x != t && x in r.tasks && x in s.doing :: r.doing[x] == s.doing[x]
    requires t in r.tasks ==> TaskInv(r, t)
    requires t in s.doing ==> s.doing[t].Idle? || s.doing[t].Begun?
    requires t in s.tasks && s.tasks[t].active.Some? ==> t in r.tasks && r.tasks[t].active == s.tasks[t].active
    ensures Inv(r)
  {
    assert CallsKept(s, r) by {
      hide TaskInv, ObjectInv;
      forall x | x in r.calls ensures CallFrame(s, r, x) { assert CallInv(s, x); }
    }
    assert TasksKept(s, r) by {
      hide CallInv, ObjectInv;
      forall x | x in r.tasks ensures TaskInv(r, x) || TaskFrame(s, r, x) {
        if x != t { assert TaskInv(s, x); }
      }
    }
    assert ObjectsKept(s, r) by {
      hide CallInv, TaskInv;
      forall x | x in r.objects ensures ObjectFrame(s, r, x) { assert ObjectInv(s, x); }
    }
    hide CallInv, TaskInv, ObjectInv, CallFrame, TaskFrame, ObjectFrame;
    Rebuild(s, r);
  }

  /** One object appears, or changes its lifecycle only. */
  lemma OneObjectInv(s: State, r: State, o: ObjectId)
    requires Inv(s) && r == s.(objects := r.objects) && o in r.objects
    requires r.objects == s.objects[o := r.objects[o]]
    requires if o in s.objects then r.objects[o].(open := true) == s.objects[o].(open := true)
             else r.objects[o].waiters == [] && r.objects[o].pending == []
    ensures Inv(r)
  {
    assert CallsKept(s, r) by {
      hide TaskInv, ObjectInv;
      forall x | x in r.calls ensures CallFrame(s, r, x) { assert CallInv(s, x); }
    }
    assert TasksKept(s, r) by {
      hide CallInv, ObjectInv;
      forall x | x in r.tasks ensures TaskFrame(s, r, x) { assert TaskInv(s, x); }
    }
    assert ObjectsKept(s, r) by {
      hide CallInv, TaskInv;
      forall x | x in r.objects ensures ObjectInv(r, x) || (x in s.objects && ObjectFrame(s, r, x)) {
        if x in s.objects { assert ObjectInv(s, x); }
      }
    }
    hide CallInv, TaskInv, ObjectInv, CallFrame, TaskFrame, ObjectFrame;
    Rebuild(s, r);
  }

  /** No queue and no task refers to a call in this place. */
  predicate Loose(p: Place) {
    !p.Queued? && !p.Delivering? && !p.Serving?
  }

  predicate SameTarget(p: Place, q: Place) {
    p.Delivering? && q.Delivering? && q.task == p.task
  }

  lemma OtherCallKept(s: State, r: State, c: CallId, x: CallId)
    requires x in s.calls && CallInv(s, x) && x != c
    requires r == s.(calls := r.calls, place := r.place, inflight := r.inflight, waking := r.waking, unwoken := r.unwoken)
    requires c in r.calls && c in r.place && r.calls == s.calls[c := r.calls[c]] && r.place == s.place[c := r.place[c]]
    requires (x in r.inflight <==> x in s.inflight) && SameWaking(s, r, x)
    ensures CallFrame(s, r, x)
  {
  }

  /** One call changes while its holder keeps it, or appears. */
  lemma OneCallInv(s: State, r: State, c: CallId)
    requires Inv(s) && r == s.(calls := r.calls, place := r.place, inflight := r.inflight,
                               waking := r.waking, unwoken := r.unwoken)
    requires c in r.calls && c in r.place && r.calls == s.calls[c := r.calls[c]] && r.place == s.place[c := r.place[c]]
    requires forall x | x != c :: (x in r.inflight <==> x in s.inflight) && SameWaking(s, r, x)
    requires CallInv(r, c)
    requires c in s.place ==> r.place[c] == s.place[c] || Loose(s.place[c]) || SameTarget(s.place[c], r.place[c])
    ensures Inv(r)
  {
    assert CallsKept(s, r) by {
      forall x | x in r.calls ensures CallInv(r, x) || (x in s.calls && CallFrame(s, r, x)) {
        if x != c {
          assert CallInv(s, x);
          OtherCallKept(s, r, c, x);
        }
      }
    }
    assert TasksKept(s, r) by {
      hide CallInv, ObjectInv, WakingInv;
      forall x | x in r.tasks ensures TaskFrame(s, r, x) { assert TaskInv(s, x); }
    }
    assert ObjectsKept(s, r) by {
      hide CallInv, TaskInv, WakingInv;
      forall x | x in r.objects ensures ObjectFrame(s, r, x) { assert ObjectInv(s, x); }
    }
    hide CallInv, TaskInv, ObjectInv, CallFrame, TaskFrame, ObjectFrame;
    Rebuild(s, r);
  }
}
