/** How the virtual clock of a CPU moves, and what its fixed-point arithmetic conserves. */
module VirtualTime {
  import opened Prelude
  import opened Arithmetic
  import opened Eevdf
  import opened RunQueue
  import opened RunQueueInvariant

  // ---- lag

  function LagShare(t: Task, v: int): int {
    if Ready(t) then Load(t) * (v - t.meta.veligible) else 0
  }

  ghost function Lags(tasks: map<TaskId, Task>, v: int): map<TaskId, int> {
    map id | id in tasks :: LagShare(tasks[id], v)
  }

  /** Total lag at clock `v`: the sum over ready tasks of weight * (v - veligible). */
  ghost function Lag(tasks: map<TaskId, Task>, v: int): int {
    Sum(Lags(tasks, v))
  }

  lemma LagSet(tasks: map<TaskId, Task>, v: int, id: TaskId, t: Task)
    ensures Lag(tasks[id := t], v) == Lag(tasks - {id}, v) + LagShare(t, v)
    ensures id in tasks ==> Lag(tasks, v) == Lag(tasks - {id}, v) + LagShare(tasks[id], v)
  {
    SumUpdate(Lags(tasks, v), id, LagShare(t, v));
    assert Lags(tasks[id := t], v) == Lags(tasks, v)[id := LagShare(t, v)];
    assert Lags(tasks - {id}, v) == Lags(tasks, v) - {id};
    if id in tasks { SumSplit(Lags(tasks, v), id); }
  }

  lemma LagShareShift(t: Task, v: int, d: int)
    ensures LagShare(t, v + d) == LagShare(t, v) + Share(t) * d
  {
    Distribute(Share(t), v - t.meta.veligible, d);
  }

  /** Moving the clock by d moves total lag by d times the runnable load. */
  lemma {:induction false} LagShift(tasks: map<TaskId, Task>, v: int, d: int)
    ensures Lag(tasks, v + d) == Lag(tasks, v) + ReadyLoad(tasks) * d
    decreases |tasks|
  {
    if tasks == map[] {
      assert Shares(tasks) == Lags(tasks, v) == Lags(tasks, v + d) == map[];
    } else {
      var id :| id in tasks;
      var t, rest := tasks[id], ReadyLoad(tasks - {id});
      LagShift(tasks - {id}, v, d);
      LagSet(tasks, v, id, t);
      LagSet(tasks, v + d, id, t);
      LoadSet(tasks, id, t);
      LagShareShift(t, v, d);
      MulSum(ReadyLoad(tasks), rest, Share(t), d);
    }
  }

  /** |a - b| < bound. */
  predicate Within(a: int, b: int, bound: int) {
    -bound < a - b < bound
  }

  /** The departure correction in unbounded arithmetic is what the `u128` code computes. */
  predicate NoSaturation(vtime: Virtual, veligible: Virtual, weight: Weight, remaining: nat)
    requires remaining > 0
  {
    var x := AbsDiff(vtime, veligible) * weight;
    && (x <= MAX_U128 || Div(x, remaining) == Div(MAX_U128, remaining))
    && (if vtime >= veligible then Div(x, remaining) <= MAX_U128 - vtime else Div(x, remaining) <= vtime)
  }

  /** How far the clock moves: never further than the exact quotient, and exactly that far absent saturation. */
  lemma ClockMove(s: Cpu, t: Task, remaining: nat) returns (m: nat)
    requires remaining > 0 && s.totalWeight == remaining + Load(t)
    ensures DepartureVtime(s, t) == if s.vtime >= t.meta.veligible then s.vtime + m else s.vtime - m
    ensures m <= Div(AbsDiff(s.vtime, t.meta.veligible) * Load(t), remaining)
    ensures m == Div(AbsDiff(s.vtime, t.meta.veligible) * Load(t), remaining)
       <==> NoSaturation(s.vtime, t.meta.veligible, Load(t), remaining)
  {
    var v, e := s.vtime, t.meta.veligible;
    var x := AbsDiff(v, e) * Load(t);
    var c := Correction(v, e, Load(t), remaining);
    if x > MAX_U128 { DivMonotone(MAX_U128, x, remaining); }
    assert c <= Div(x, remaining);
    m := if v >= e then (if v + c <= MAX_U128 then c else MAX_U128 - v) else (if c <= v then c else v);
  }

  lemma QuotientUnique(x: nat, r: nat, m: nat)
    requires r > 0 && m <= Div(x, r)
    ensures Within(r * m, x, r) <==> m == Div(x, r)
  {
    DivBounds(x, r);
    if m < Div(x, r) { MulLess(r, m, Div(x, r)); }
  }

  /** One departure, in numbers: the load-weighted move of the clock cancels the departing lag up to rounding. */
  lemma CorrectionCancels(s: Cpu, t: Task, remaining: nat)
    requires remaining > 0 && s.totalWeight == remaining + Load(t)
    ensures Within(remaining * (DepartureVtime(s, t) - s.vtime), Load(t) * (s.vtime - t.meta.veligible), remaining)
       <==> NoSaturation(s.vtime, t.meta.veligible, Load(t), remaining)
  {
    var m := ClockMove(s, t, remaining);
    var gap := AbsDiff(s.vtime, t.meta.veligible);
    Negate(remaining, m);
    Negate(Load(t), gap);
    QuotientUnique(gap * Load(t), remaining, m);
  }

  /**
   A departure conserves total lag: with load remaining, the lag of the remaining ready tasks at the new clock
   is the lag of all ready tasks at the old clock, up to an error smaller than the remaining load; and this
   fails exactly when the correction saturates.
   */
  lemma DepartureConservesLag(s: Cpu, id: TaskId)
    requires Weighed(s) && id in s.tasks && Ready(s.tasks[id])
    requires ReadyLoad(s.tasks - {id}) > 0
    ensures Within(Lag(s.tasks - {id}, DepartureVtime(s, s.tasks[id])), Lag(s.tasks, s.vtime), ReadyLoad(s.tasks - {id}))
       <==> NoSaturation(s.vtime, s.tasks[id].meta.veligible, Load(s.tasks[id]), ReadyLoad(s.tasks - {id}))
  {
    var t := s.tasks[id];
    LoadSet(s.tasks, id, t);
    LagOfRest(s.tasks, id, s.vtime, DepartureVtime(s, t));
    CorrectionCancels(s, t, ReadyLoad(s.tasks - {id}));
  }

  /** Taking a ready task away while the clock moves from v to w. */
  lemma LagOfRest(tasks: map<TaskId, Task>, id: TaskId, v: int, w: int)
    requires id in tasks && Ready(tasks[id])
    ensures Lag(tasks - {id}, w) - Lag(tasks, v)
         == ReadyLoad(tasks - {id}) * (w - v) - Load(tasks[id]) * (v - tasks[id].meta.veligible)
  {
    LagSet(tasks, v, id, tasks[id]);
    LagShift(tasks - {id}, v, w - v);
  }

  /** Leaving the CPU touches no other task, and takes the clock where the departure rule says. */
  lemma LeaveEffect(s: Cpu, exit: Option<TaskExit>)
    requires Inv(s) && s.current.Some?
    ensures var id := s.current.value;
            var r := LeaveCurrent(s, exit).0;
            && Weighed(s) && id in s.tasks && Ready(s.tasks[id]) && id in r.tasks && !Ready(r.tasks[id])
            && r.tasks == s.tasks[id := r.tasks[id]]
            && r.vtime == DepartureVtime(s, s.tasks[id])
  {
    hide Keyed;
    StepOff(s);
    var id := s.current.value;
    var s2 := SetTask(s.(current := None), id, StopClock(s.tasks[id]));
    assert DepartureVtime(s2, s2.tasks[id]) == DepartureVtime(s, s.tasks[id]);
  }

  lemma RemoveEffect(s: Cpu, id: TaskId)
    requires id in s.tasks && !Ready(s.tasks[id])
    ensures RemoveTask(s, id).0.tasks == s.tasks - {id} && RemoveTask(s, id).0.vtime == s.vtime
  {
  }

  /** Blocking, exiting and migrating all depart in that way. */
  lemma BlockingConservesLag(s: Cpu, exit: Option<TaskExit>)
    requires Inv(s) && s.current.Some?
    requires var id := s.current.value;
             id in s.tasks && ReadyLoad(s.tasks - {id}) > 0
             && NoSaturation(s.vtime, s.tasks[id].meta.veligible, Load(s.tasks[id]), ReadyLoad(s.tasks - {id}))
    ensures var r := LeaveCurrent(s, exit).0;
            var gone := RemoveTask(r, s.current.value).0;
            && Within(Lag(r.tasks, r.vtime), Lag(s.tasks, s.vtime), ReadyLoad(r.tasks))
            && ReadyLoad(r.tasks) == ReadyLoad(s.tasks) - Load(s.tasks[s.current.value])
            && Lag(gone.tasks, gone.vtime) == Lag(r.tasks, r.vtime)
  {
    hide LeaveCurrent, RemoveTask, Inv;
    var id := s.current.value;
    var r := LeaveCurrent(s, exit).0;
    LeaveEffect(s, exit);
    RemoveEffect(r, id);
    DepartureConservesLag(s, id);
    LagSet(s.tasks, r.vtime, id, r.tasks[id]);
    LoadSet(s.tasks, id, r.tasks[id]);
    LagSet(r.tasks, r.vtime, id, r.tasks[id]);
    assert r.tasks - {id} == s.tasks - {id};
  }

  lemma MigrationConservesLag(s: Cpu, now: Nanos, threshold: Nanos, relax: bool)
    requires Inv(s)
    ensures var (r, taken) := TakeMigratable(s, now, threshold, relax);
            taken.Some? ==>
              var (id, t) := taken.value;
              && id in s.tasks && r.tasks == s.tasks - {id}
              && (ReadyLoad(r.tasks) > 0
                  && NoSaturation(s.vtime, s.tasks[id].meta.veligible, Load(s.tasks[id]), ReadyLoad(r.tasks)) ==>
                    Within(Lag(r.tasks, r.vtime), Lag(s.tasks, s.vtime), ReadyLoad(r.tasks)))
  {
    MigrationEffect(s, now, threshold, relax);
    hide TakeMigratable, Inv, DepartureVtime;
    var (r, taken) := TakeMigratable(s, now, threshold, relax);
    if taken.Some? && ReadyLoad(r.tasks) > 0 { DepartureConservesLag(s, taken.value.0); }
  }

  lemma MigrationEffect(s: Cpu, now: Nanos, threshold: Nanos, relax: bool)
    requires Inv(s)
    ensures var (r, taken) := TakeMigratable(s, now, threshold, relax);
            taken.Some? ==>
              var id := taken.value.0;
              && Weighed(s) && id in s.tasks && Ready(s.tasks[id])
              && r.tasks == s.tasks - {id} && r.vtime == DepartureVtime(s, s.tasks[id])
  {
    hide Keyed, ChooseMigratable;
    var (r, taken) := TakeMigratable(s, now, threshold, relax);
    if taken.Some? {
      ChooseMigratableFound(s, now, threshold, relax);
      assert Queued(s, taken.value.0);
    }
  }

  // ---- deadlines

  /**
   In every reachable state a task is not eligible before the service it has had, and its deadline is what one slice
   at its weight comes to after that, rounded down, exactly unless the sum leaves the clock's range.
   */
  lemma DeadlineIsOneSliceAway(s: Cpu, id: TaskId)
    requires Inv(s) && id in s.tasks
    ensures var m := s.tasks[id].meta;
            var w, span := AtLeastOne(m.weight), m.vdeadline - m.veligible;
            && m.vruntime <= m.veligible <= m.vdeadline
            && (w * span <= m.slice * BASE_WEIGHT < w * span + w <==> m.veligible + m.slice * BASE_WEIGHT / w <= MAX_U128)
  {
    assert TaskShape(s, id, {});
    var m := s.tasks[id].meta;
    SliceSpan(m.veligible, m.slice * BASE_WEIGHT, AtLeastOne(m.weight), m.vdeadline);
  }

  lemma SliceSpan(veligible: Virtual, x: nat, w: nat, vdeadline: Virtual)
    requires w > 0 && vdeadline == SatAdd(veligible, Div(x, w), MAX_U128)
    ensures veligible <= vdeadline
    ensures var span := vdeadline - veligible;
            w * span <= x < w * span + w <==> veligible + x / w <= MAX_U128
  {
    DivBounds(x, w);
    var q, span := Div(x, w), vdeadline - veligible;
    if veligible + q > MAX_U128 { MulLess(w, span, q); }
  }

  // ---- direction of the clock

  /** Exactly when does a departure turn the clock back. */
  lemma DepartureTurnsBack(s: Cpu, t: Task)
    ensures var remaining := SatSub(s.totalWeight, Load(t));
            DepartureVtime(s, t) < s.vtime <==>
              && remaining > 0 && t.meta.veligible > s.vtime > 0
              && SatMul(t.meta.veligible - s.vtime, Load(t)) >= remaining
  {
    var remaining := SatSub(s.totalWeight, Load(t));
    if remaining > 0 {
      DivPositive(SatMul(AbsDiff(s.vtime, t.meta.veligible), Load(t)), remaining);
    }
  }

  // ---- runtime accounting

  function ServiceShare(t: Task): int {
    if Ready(t) then Load(t) * t.meta.vruntime else 0
  }

  ghost function Services(tasks: map<TaskId, Task>): map<TaskId, int> {
    map id | id in tasks :: ServiceShare(tasks[id])
  }

  /** Total weighted virtual runtime of the ready tasks. */
  ghost function Service(tasks: map<TaskId, Task>): int {
    Sum(Services(tasks))
  }

  /** Load times clock, minus the weighted virtual runtime of the ready tasks. */
  ghost function Imbalance(s: Cpu): int {
    ReadyLoad(s.tasks) * s.vtime - Service(s.tasks)
  }

  lemma ServiceSet(tasks: map<TaskId, Task>, id: TaskId, t: Task)
    ensures Service(tasks[id := t]) == Service(tasks - {id}) + ServiceShare(t)
    ensures id in tasks ==> Service(tasks) == Service(tasks - {id}) + ServiceShare(tasks[id])
  {
    SumUpdate(Services(tasks), id, ServiceShare(t));
    assert Services(tasks[id := t]) == Services(tasks)[id := ServiceShare(t)];
    assert Services(tasks - {id}) == Services(tasks) - {id};
    if id in tasks { SumSplit(Services(tasks), id); }
  }

  predicate AccountsExactly(s: Cpu, runtime: Nanos)
    requires s.current.Some? && s.current.value in s.tasks
  {
    var t := s.tasks[s.current.value];
    && s.vtime + Div(runtime * BASE_WEIGHT, AtLeastOne(s.totalWeight)) <= MAX_U128
    && t.meta.vruntime + Div(runtime * BASE_WEIGHT, Load(t)) <= MAX_U128
  }

  /** What one accounting step does to the clock and to the current task's virtual runtime. */
  lemma AccountEffect(s: Cpu, runtime: Nanos, now: Nanos)
    requires Inv(s) && s.current.Some? && s.current.value in s.tasks && AccountsExactly(s, runtime)
    ensures var id := s.current.value;
            var r := AccountCurrent(s, runtime, now);
            && Ready(s.tasks[id]) && Load(s.tasks[id]) <= ReadyLoad(s.tasks)
            && r.tasks == s.tasks[id := r.tasks[id]] && Share(r.tasks[id]) == Share(s.tasks[id])
            && r.vtime == s.vtime + Div(runtime * BASE_WEIGHT, ReadyLoad(s.tasks))
            && r.tasks[id].meta.vruntime == s.tasks[id].meta.vruntime + Div(runtime * BASE_WEIGHT, Load(s.tasks[id]))
  {
    LoadSet(s.tasks, s.current.value, s.tasks[s.current.value]);
  }

  /** One accounting step charges clock and task alike, up to rounding below the total load. */
  lemma AccountingIsFair(s: Cpu, runtime: Nanos, now: Nanos)
    requires Inv(s) && s.current.Some? && s.current.value in s.tasks && AccountsExactly(s, runtime)
    ensures Within(Imbalance(AccountCurrent(s, runtime, now)), Imbalance(s), ReadyLoad(s.tasks))
    ensures ReadyLoad(AccountCurrent(s, runtime, now).tasks) == ReadyLoad(s.tasks)
  {
    hide Inv, AccountCurrent, AccountsExactly, ReadyLoad, Service, Share, Div;
    var id := s.current.value;
    var r := AccountCurrent(s, runtime, now);
    AccountEffect(s, runtime, now);
    LoadKept(s.tasks, id, r.tasks[id]);
    ServiceChange(s.tasks, id, r.tasks[id]);
    FairArithmetic(runtime * BASE_WEIGHT, ReadyLoad(s.tasks), Load(s.tasks[id]), s.vtime, s.tasks[id].meta.vruntime);
  }

  lemma ServiceChange(tasks: map<TaskId, Task>, id: TaskId, t: Task)
    requires id in tasks && Ready(tasks[id]) && Share(t) == Share(tasks[id])
    ensures Service(tasks[id := t]) - Service(tasks)
         == Load(tasks[id]) * t.meta.vruntime - Load(tasks[id]) * tasks[id].meta.vruntime
  {
    ServiceSet(tasks, id, t);
  }

  lemma FairArithmetic(x: nat, load: nat, w: nat, vtime: nat, vruntime: nat)
    requires 0 < w <= load
    ensures Within(load * (vtime + Div(x, load)) - w * (vruntime + Div(x, w)), load * vtime - w * vruntime, load)
  {
    DivBounds(x, load);
    DivBounds(x, w);
    Distribute(load, vtime, Div(x, load));
    Distribute(w, vruntime, Div(x, w));
  }
}
