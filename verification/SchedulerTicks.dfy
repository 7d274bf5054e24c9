/** What a timer tick does and answers, and what a task on the CPU has run for. */
module SchedulerTicks {
  import opened Prelude
  import opened Eevdf
  import opened RunQueue
  import opened RunQueueInvariant
  import opened RunQueueEffects
  import opened Selection
  import opened SchedulerRuns

  // ---- The tick

  /** What a tick has when it comes to its preemption test: tasks woken, then time charged. */
  function Midway(s: Cpu, now: Nanos): (Cpu, bool) {
    var s1 := Drain(s).0;
    if s1.current == None then (s1, false) else AccountSince(s1, s1.current.value, Some(now))
  }

  lemma TickUnfolds(s: Cpu, now: Nanos)
    ensures var (c, charged) := Midway(s, now);
            OnTick(s, now) == if c.current == None && Drain(s).1 > 0 then (c, true)
                              else if charged || Drain(s).1 > 0 then ShouldPreempt(c) else (c, false)
  {
  }

  lemma PreemptDoes(s: Cpu)
    requires Inv(s)
    ensures var (r, preempt) := ShouldPreempt(s);
            && r == s.(eligible := r.eligible, ineligible := r.ineligible)
            && (forall x :: (Queued(r, x) <==> Queued(s, x)) && (InLine(r, x) <==> InLine(s, x)))
            && (preempt <==> s.current.Some? && exists x :: InLine(r, x) && Beats(r, x))
            && (ClockAhead(s) ==> (preempt <==> s.current.Some? && exists x :: Queued(r, x) && Outranks(r, x)))
  {
    hide InLine, ClockAhead;
    if s.current.Some? {
      ShouldPreemptCorrect(s);
      var r := ShouldPreempt(s).0;
      forall x ensures (Beats(r, x) <==> Beats(s, x)) && (Outranks(r, x) <==> Outranks(s, x)) {
      }
    }
  }

  lemma MidwayKeeps(s: Cpu, now: Nanos)
    requires Inv(s) && Fits(OnTick(s, now).0)
    ensures Inv(Drain(s).0) && Inv(Midway(s, now).0) && Midway(s, now).0.current == s.current
    ensures ClockAhead(s) ==> ClockAhead(Midway(s, now).0)
  {
    hide Inv, Fits, ClockAhead, ShouldPreempt, AccountSince;
    var s1 := Drain(s).0;
    PreemptKeepsTasks(Midway(s, now).0);
    AccountSinceTasks(s1, now);
    SameLoad(s1, OnTick(s, now).0);
    DrainInv(s);
    DrainAdvances(s);
    DrainWakes(s, 0);
    if s1.current.Some? { MidwayCharges(s1, now); }
  }

  lemma SameLoad(s: Cpu, r: Cpu)
    requires ReadyLoad(r.tasks) == ReadyLoad(s.tasks) && Fits(r)
    ensures Fits(s)
  {
  }

  lemma MidwayCharges(s: Cpu, now: Nanos)
    requires Inv(s) && s.current.Some?
    ensures var r := AccountSince(s, s.current.value, Some(now)).0;
            Inv(r) && r.current == s.current && (ClockAhead(s) ==> ClockAhead(r))
  {
    AccountSinceInv(s, s.current.value, Some(now));
    AccountAdvances(s, s.current.value, Some(now));
  }

  lemma Untouched(s: Cpu, r: Cpu, id: TaskId, x: TaskId)
    requires OnlyTask(s, r, id) && x != id
    ensures (x in r.tasks <==> x in s.tasks) && (x in s.tasks ==> r.tasks[x] == s.tasks[x])
  {
    assert x in r.tasks - {id} <==> x in s.tasks - {id};
    if x in s.tasks { assert (r.tasks - {id})[x] == (s.tasks - {id})[x]; }
  }

  /** What the charge of a tick makes of the metadata `m` of the task on the CPU, and of the clock. */
  predicate Billed(s: Cpu, m: Meta, r: Cpu, n: Meta, now: Nanos)
    requires m.execStart.Some? && now > m.execStart.value
  {
    var time := now - m.execStart.value;
    && n.execStart == Some(now) && n.execRuntime == Min(m.execRuntime + time, MAX_DURATION)
    && n.vruntime == Min(m.vruntime + time * 1024 / AtLeastOne(m.weight), MAX_U128)
    && r.vtime == Min(s.vtime + time * 1024 / AtLeastOne(r.totalWeight), MAX_U128)
    && n.veligible == Max(n.vruntime, r.vtime)
  }

  lemma MidwayBills(s: Cpu, now: Nanos, id: TaskId)
    requires Inv(s) && s.current == Some(id)
    ensures var (c, charged) := Midway(s, now);
            && id in s.tasks && id in c.tasks && (charged <==> Charging(s.tasks[id], Some(now)))
            && OnlyTask(Drain(s).0, c, id)
            && (if charged then Billed(s, s.tasks[id].meta, c, c.tasks[id].meta, now)
                else c.tasks[id].meta == s.tasks[id].meta && c.vtime == s.vtime)
  {
    hide Popped, AccountSince, Drain, OnlyTask;
    assert id in s.tasks && Ready(s.tasks[id]);
    var s1 := Drain(s).0;
    DrainWakes(s, id);
    PoppedRuns(s, s.tasks[id]);
    AccountSinceDoes(s1, id, Some(now));
    ChargeKeepsTrees(s1, id, Some(now));
  }

  lemma MidwayOthers(s: Cpu, now: Nanos, x: TaskId)
    requires Inv(s)
    ensures var c := Midway(s, now).0;
            && (Queued(c, x) <==> Queued(s, x) || ToWake(s, x))
            && (s.current != Some(x) ==>
                  && (x in c.tasks <==> x in s.tasks)
                  && (x in s.tasks ==> c.tasks[x] == if x in s.inbox then Popped(s, s.tasks[x]) else s.tasks[x]))
  {
    hide Inv, Popped, AccountSince, Drain, OnlyTask, Billed;
    DrainWakes(s, x);
    if s.current.Some? {
      var id := s.current.value;
      MidwayBills(s, now, id);
      ChargeKeepsTrees(Drain(s).0, id, Some(now));
      if x != id { Untouched(Drain(s).0, Midway(s, now).0, id, x); }
    }
  }

  lemma PoppedRuns(s: Cpu, t: Task)
    requires Ready(t)
    ensures Popped(s, t) == t.(wakeQueued := false)
  {
  }

  lemma ChargeKeepsTrees(s: Cpu, id: TaskId, at: Option<Nanos>)
    ensures var r := AccountSince(s, id, at).0;
            r.eligible == s.eligible && r.ineligible == s.ineligible && r.totalWeight == s.totalWeight
  {
  }

  /** Time is charged on this tick: a task is on the CPU, and the tick is past its stamp. */
  predicate Chargeable(s: Cpu, now: Nanos) {
    s.current.Some? && s.current.value in s.tasks && Charging(s.tasks[s.current.value], Some(now))
  }

  lemma ChargedWhen(s: Cpu, now: Nanos)
    requires Inv(s)
    ensures Midway(s, now).1 <==> Chargeable(s, now)
  {
    hide Inv, Drain, AccountSince, Billed, OnlyTask;
    DrainWakes(s, 0);
    if s.current.Some? { MidwayBills(s, now, s.current.value); }
  }

  /** A tick looks for a task to switch to: something runs, and time was charged or a task woken. */
  ghost predicate Compares(s: Cpu, now: Nanos) {
    s.current.Some? && (Chargeable(s, now) || Sleepers(s) != {})
  }

  /**
   A tick asks for a switch exactly when nothing runs and it woke a task, or when something runs, time was charged or a
   task was woken, and some task then in line beats the running one: in a truthful tree, some queued task outranks it.
   */
  lemma TickAnswers(s: Cpu, now: Nanos)
    requires Inv(s) && Fits(OnTick(s, now).0)
    ensures var (r, answer) := OnTick(s, now);
            && r.current == s.current
            && (answer <==> (s.current == None && Sleepers(s) != {})
                            || (Compares(s, now) && exists x :: InLine(r, x) && Beats(r, x)))
            && (ClockAhead(s) ==>
                  (answer <==> (s.current == None && Sleepers(s) != {})
                               || (Compares(s, now) && exists x :: Queued(r, x) && Outranks(r, x))))
  {
    hide Inv, Fits, ClockAhead, OnTick, Midway, Drain, ShouldPreempt, Chargeable, Sleepers, InLine, Beats, Outranks;
    MidwayKeeps(s, now);
    TickUnfolds(s, now);
    DrainCounts(s);
    ChargedWhen(s, now);
    PreemptDoes(Midway(s, now).0);
  }

  /** A tick leaves its midway state but for the split of the queue between the trees. */
  lemma TickKeepsMidway(s: Cpu, now: Nanos)
    requires Inv(s) && Fits(OnTick(s, now).0)
    ensures var r, c := OnTick(s, now).0, Midway(s, now).0;
            r == c.(eligible := r.eligible, ineligible := r.ineligible) && (forall x :: Queued(r, x) <==> Queued(c, x))
  {
    hide Inv, Fits, OnTick, Midway, Drain, ShouldPreempt;
    MidwayKeeps(s, now);
    TickUnfolds(s, now);
    PreemptDoes(Midway(s, now).0);
  }

  /**
   A tick wakes and queues exactly the sleeping tasks of the inbox, at the clock it found; then it charges the task on
   the CPU, at the weight that includes the woken tasks. It leaves every other task as it was.
   */
  lemma TickDoes(s: Cpu, now: Nanos, x: TaskId)
    requires Inv(s) && Fits(OnTick(s, now).0)
    ensures var r := OnTick(s, now).0;
            && (Queued(r, x) <==> Queued(s, x) || ToWake(s, x)) && (x in r.tasks <==> x in s.tasks)
            && (s.current != Some(x) && x in s.tasks ==>
                  r.tasks[x] == if x in s.inbox then Popped(s, s.tasks[x]) else s.tasks[x])
            && (s.current == Some(x) ==>
                  && x in s.tasks
                  && if Charging(s.tasks[x], Some(now)) then Billed(s, s.tasks[x].meta, r, r.tasks[x].meta, now)
                     else r.tasks[x].meta == s.tasks[x].meta && r.vtime == s.vtime)
  {
    hide Inv, Fits, OnTick, Midway, Drain, Popped;
    TickKeepsMidway(s, now);
    MidwayOthers(s, now, x);
    if s.current == Some(x) { MidwayBills(s, now, x); }
  }

  // ---- What the task on the CPU has run for

  /** A task taken at `since` and last charged at `last`. */
  predicate Clocked(m: Meta, since: Nanos, last: Nanos) {
    since <= last && m.execStart == Some(last) && m.execRuntime == last - since
  }

  function Later(a: Nanos, at: Option<Nanos>): Nanos {
    if at.Some? && at.value > a then at.value else a
  }

  /** The time is charged to the current task at each of the given moments. */
  function ChargeAll(s: Cpu, id: TaskId, times: seq<Option<Nanos>>): Cpu
    decreases |times|
  {
    if times == [] then s else ChargeAll(AccountSince(s, id, times[0]).0, id, times[1..])
  }

  function Latest(since: Nanos, times: seq<Option<Nanos>>): Nanos
    decreases |times|
  {
    if times == [] then since else Latest(Later(since, times[0]), times[1..])
  }

  lemma {:induction false} ChargesAdd(s: Cpu, id: TaskId, since: Nanos, last: Nanos, times: seq<Option<Nanos>>)
    requires s.current == Some(id) && id in s.tasks && Clocked(s.tasks[id].meta, since, last)
    ensures var r := ChargeAll(s, id, times);
            r.current == Some(id) && id in r.tasks && Clocked(r.tasks[id].meta, since, Latest(last, times))
    decreases |times|
  {
    if times != [] {
      AccountSinceDoes(s, id, times[0]);
      ChargesAdd(AccountSince(s, id, times[0]).0, id, since, Later(last, times[0]), times[1..]);
    }
  }

  /** After any charges a task carries the latest moment and has been charged all the time since it was taken. */
  lemma TakenThenCharged(s: Cpu, since: Nanos, times: seq<Option<Nanos>>)
    requires Inv(s) && TakeNext(s, since).1.Some?
    ensures var (s1, taken) := TakeNext(s, since);
            var r := ChargeAll(s1, taken.value, times);
            taken.value in r.tasks && Clocked(r.tasks[taken.value].meta, since, Latest(since, times))
  {
    TakeNextDoes(s, since);
    hide TakeNext, Inv;
    var (s1, taken) := TakeNext(s, since);
    ChargesAdd(s1, taken.value, since, since, times);
  }

  /** Only a tick moves the clock of the task that stays on the CPU. */
  lemma StepClocked(s: Cpu, step: Step, id: TaskId, since: Nanos, last: Nanos)
    requires Inv(s) && Enabled(s, step) && Fits(Apply(s, step))
    requires s.current == Some(id) && Apply(s, step).current == Some(id)
    requires id in s.tasks && Clocked(s.tasks[id].meta, since, last)
    ensures var r := Apply(s, step);
            id in r.tasks && Clocked(r.tasks[id].meta, since, Later(last, TickTime(step)))
  {
    hide Inv, Fits, Admit, RemoveTask, Drain, TakeNext, OnTick, SavePreempted, Boundary, TakeMigratable, Popped;
    CurrentRuns(s);
    match step
    case AdmitTask(x, t) => AdmitSpares(s, x, t, id);
    case Withdraw(x) => WithdrawSpares(s, x, id);
    case Wake(x) =>
    case DrainInbox => DrainWakes(s, id); PoppedRuns(s, s.tasks[id]);
    case Take(_) =>
    case Tick(now) => TickDoes(s, now, id);
    case PreemptTrap(onStack, at) => if onStack { SavePreemptedDoes(s, at); } else { OffStack(s, CancelBoundary, at); }
    case BoundaryTrap(onStack, action, at) => if onStack { BoundaryDoes(s, action, at); } else { OffStack(s, action, at); }
    case MigrateOut(now, threshold, relax) => MigrateSpares(s, now, threshold, relax, id);
    case Poke(x, t) =>
  }

  function TickTime(step: Step): Option<Nanos> {
    if step.Tick? then Some(step.now) else None
  }

  lemma CurrentRuns(s: Cpu)
    requires Inv(s)
    ensures s.current.Some? ==> s.current.value in s.tasks && Ready(s.tasks[s.current.value])
  {
  }

  lemma AdmitSpares(s: Cpu, x: TaskId, t: Task, id: TaskId)
    requires Inv(s) && id in s.tasks
    ensures id in Admit(s, x, t).tasks && Admit(s, x, t).tasks[id] == s.tasks[id]
  {
    hide Inv;
    if x !in s.tasks {
      AdmitDoes(s, x, t);
      Untouched(s, Admit(s, x, t), x, id);
    }
  }

  lemma WithdrawSpares(s: Cpu, x: TaskId, id: TaskId)
    requires id in s.tasks && x != id
    ensures var r := RemoveTask(s, x).0; id in r.tasks && r.tasks[id] == s.tasks[id]
  {
  }

  lemma OffStack(s: Cpu, action: BoundaryAction, at: Option<Nanos>)
    ensures SavePreempted(s, false, at) == (s, None) && Boundary(s, false, action, at) == (s, None)
  {
  }

  lemma MigrateSpares(s: Cpu, now: Nanos, threshold: Nanos, relax: bool, id: TaskId)
    requires Inv(s) && s.current == Some(id) && id in s.tasks
    ensures var r := TakeMigratable(s, now, threshold, relax).0; id in r.tasks && r.tasks[id] == s.tasks[id]
  {
    ChooseMigratableFound(s, now, threshold, relax);
    hide ChooseMigratable;
  }

  function Ticks(steps: seq<Step>): seq<Option<Nanos>> {
    seq(|steps|, i requires 0 <= i < |steps| => TickTime(steps[i]))
  }

  /**
   Over any run: as long as a task taken at a moment stays on the CPU, it carries the time of the latest tick since, and
   it has been charged exactly the time from the moment it was taken to that tick.
   */
  lemma {:induction false} RunsFor(states: seq<Cpu>, steps: seq<Step>, i: nat, j: nat, id: TaskId)
    requires Run(states, steps) && (forall s | s in states :: Fits(s))
    requires i < j <= |steps| && steps[i].Take?
    requires forall k | i < k <= j :: states[k].current == Some(id)
    ensures id in states[j].tasks
         && Clocked(states[j].tasks[id].meta, steps[i].now, Latest(steps[i].now, Ticks(steps[i + 1..j])))
    decreases j
  {
    hide *;
    RunKeepsInv(states, steps);
    RunStep(states, steps, j - 1);
    var since := steps[i].now;
    TicksGrow(since, steps, i + 1, j);
    if j == i + 1 {
      TakeClocks(states[i], since, id);
    } else {
      RunsFor(states, steps, i, j - 1, id);
      StepClocked(states[j - 1], steps[j - 1], id, since, Latest(since, Ticks(steps[i + 1..j - 1])));
    }
  }

  lemma TicksGrow(since: Nanos, steps: seq<Step>, i: nat, j: nat)
    requires i <= j <= |steps|
    ensures Latest(since, Ticks(steps[i..j]))
         == if i == j then since else Later(Latest(since, Ticks(steps[i..j - 1])), TickTime(steps[j - 1]))
  {
    if i < j {
      var before := Ticks(steps[i..j - 1]);
      assert Ticks(steps[i..j]) == before + [TickTime(steps[j - 1])];
      LatestLast(since, before, TickTime(steps[j - 1]));
    }
  }

  lemma RunStep(states: seq<Cpu>, steps: seq<Step>, i: nat)
    requires Run(states, steps) && (forall s | s in states :: Fits(s) && Inv(s)) && i < |steps|
    ensures |states| == |steps| + 1 && Inv(states[i]) && Fits(states[i + 1])
    ensures Enabled(states[i], steps[i]) && states[i + 1] == Apply(states[i], steps[i])
  {
    hide Inv, Fits, Apply, Enabled;
    assert states[i] in states && states[i + 1] in states;
  }

  lemma TakeClocks(s: Cpu, since: Nanos, id: TaskId)
    requires Inv(s) && Enabled(s, Take(since)) && Apply(s, Take(since)).current == Some(id)
    ensures var r := Apply(s, Take(since)); id in r.tasks && Clocked(r.tasks[id].meta, since, since)
  {
    TakeNextDoes(s, since);
    hide TakeNext, Inv;
  }

  lemma {:induction false} LatestLast(since: Nanos, times: seq<Option<Nanos>>, at: Option<Nanos>)
    ensures Latest(since, times + [at]) == Later(Latest(since, times), at)
    decreases |times|
  {
    if times == [] {
      assert [] + [at] == [at] && [at][1..] == [];
    } else {
      assert (times + [at])[1..] == times[1..] + [at];
      LatestLast(Later(since, times[0]), times[1..], at);
    }
  }
}
