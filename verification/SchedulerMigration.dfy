/** Which task `take_migratable` (kernel/src/sched/mod.rs) offers, and how long a task that stopped stays put. */
module SchedulerMigration {
  import opened Prelude
  import opened Eevdf
  import opened RunQueue
  import opened RunQueueInvariant
  import opened RunQueueEffects
  import opened Selection
  import opened SchedulerSystem

  // ---- The choice

  /** Of the tasks of the tree that qualify, the first one comes before every other. */
  lemma {:induction false} FirstIsFirst(s: Cpu, order: Order, tree: seq<TaskId>, now: Nanos, threshold: Nanos,
                                        ignoreHot: bool)
    requires Ordered(s.tasks, order, tree)
    ensures var r := FirstMigratable(s, tree, now, threshold, ignoreHot);
            r.Some? ==> forall id | id in tree && Migratable(s, id, now, threshold, ignoreHot) ::
                          id == r.value || Before(s.tasks, order, r.value, id)
    decreases |tree|
  {
    hide Migratable, Before;
    if tree != [] {
      assert forall i, j | 0 <= i < j < |tree[1..]| :: Before(s.tasks, order, tree[1..][i], tree[1..][j]);
      FirstIsFirst(s, order, tree[1..], now, threshold, ignoreHot);
      assert forall i | 0 < i < |tree| :: Before(s.tasks, order, tree[0], tree[i]);
    }
  }

  /** Among the queued tasks that qualify, `id` is the one to go: the first eligible one, or else the first of the rest. */
  ghost predicate GoesFirst(s: Cpu, id: TaskId, now: Nanos, threshold: Nanos, ignoreHot: bool) {
    && Migratable(s, id, now, threshold, ignoreHot)
    && if id in s.eligible then
         forall x | x in s.eligible && x != id && Migratable(s, x, now, threshold, ignoreHot) ::
           Sooner(s.tasks[id].meta.vdeadline, id, s.tasks[x].meta.vdeadline, x)
       else
         && id in s.ineligible
         && (forall x | x in s.eligible :: !Migratable(s, x, now, threshold, ignoreHot))
         && (forall x | x in s.ineligible && x != id && Migratable(s, x, now, threshold, ignoreHot) ::
               Sooner(s.tasks[id].meta.veligible, id, s.tasks[x].meta.veligible, x))
  }

  lemma BeforeMeans(s: Cpu, id: TaskId, x: TaskId)
    requires id in s.tasks && x in s.tasks
    ensures Before(s.tasks, ByDeadline, id, x)
       <==> Sooner(s.tasks[id].meta.vdeadline, id, s.tasks[x].meta.vdeadline, x)
    ensures Before(s.tasks, ByEligible, id, x)
       <==> Sooner(s.tasks[id].meta.veligible, id, s.tasks[x].meta.veligible, x)
  {
  }

  lemma ScanGoesFirst(s: Cpu, now: Nanos, threshold: Nanos, ignoreHot: bool)
    requires Inv(s)
    ensures var a := FirstMigratable(s, s.eligible, now, threshold, ignoreHot);
            var b := FirstMigratable(s, s.ineligible, now, threshold, ignoreHot);
            && (a.Some? ==> GoesFirst(s, a.value, now, threshold, ignoreHot))
            && (a == None && b.Some? ==> GoesFirst(s, b.value, now, threshold, ignoreHot))
            && (a == None && b == None ==> forall x | Queued(s, x) :: !Migratable(s, x, now, threshold, ignoreHot))
  {
    hide Sooner, Before, CacheHot;
    forall id, x | id in s.tasks && x in s.tasks
      ensures Before(s.tasks, ByDeadline, id, x)
         <==> Sooner(s.tasks[id].meta.vdeadline, id, s.tasks[x].meta.vdeadline, x)
      ensures Before(s.tasks, ByEligible, id, x)
         <==> Sooner(s.tasks[id].meta.veligible, id, s.tasks[x].meta.veligible, x)
    {
      BeforeMeans(s, id, x);
    }
    FirstMigratableFound(s, s.eligible, now, threshold, ignoreHot);
    FirstMigratableFound(s, s.ineligible, now, threshold, ignoreHot);
    FirstIsFirst(s, ByDeadline, s.eligible, now, threshold, ignoreHot);
    FirstIsFirst(s, ByEligible, s.ineligible, now, threshold, ignoreHot);
  }

  /**
   The task offered is the first of the cold ones; only when the policy relaxes and no queued task is cold and may move
   is it the first of all that may move; and none is offered exactly when none qualifies.
   */
  lemma ChoiceGoesFirst(s: Cpu, now: Nanos, threshold: Nanos, relax: bool)
    requires Inv(s)
    ensures var r := ChooseMigratable(s, now, threshold, relax);
            if exists x :: Queued(s, x) && Migratable(s, x, now, threshold, false)
            then r.Some? && GoesFirst(s, r.value, now, threshold, false)
            else if relax && exists x :: Queued(s, x) && Migratable(s, x, now, threshold, true)
            then r.Some? && GoesFirst(s, r.value, now, threshold, true)
            else r == None
  {
    hide Inv, CacheHot, Sooner;
    ChooseMigratableFound(s, now, threshold, relax);
    ScanGoesFirst(s, now, threshold, false);
    ScanGoesFirst(s, now, threshold, true);
  }

  // ---- The hand-over

  /** The chosen task leaves with its clock stopped and its weight; the rest of the queue and the inbox stay. */
  lemma MigrationDoes(s: Cpu, now: Nanos, threshold: Nanos, relax: bool)
    requires Inv(s)
    ensures var choice := ChooseMigratable(s, now, threshold, relax);
            var (r, taken) := TakeMigratable(s, now, threshold, relax);
            if choice == None then r == s && taken == None
            else
              var id := choice.value;
              && id in s.tasks && taken == Some((id, Stopped(s.tasks[id]))) && r.tasks == s.tasks - {id}
              && (forall x :: Queued(r, x) <==> Queued(s, x) && x != id)
              && r.totalWeight == s.totalWeight - AtLeastOne(s.tasks[id].meta.weight)
              && r.cpuId == s.cpuId && r.current == s.current && r.inbox == s.inbox
  {
    hide ChooseMigratable, Keyed, DepartureVtime;
    ChooseMigratableFound(s, now, threshold, relax);
    var choice := ChooseMigratable(s, now, threshold, relax);
    if choice.Some? {
      var id := choice.value;
      assert Queued(s, id);
      WithoutOrdered(s.tasks, ByDeadline, s.eligible, id);
      WithoutOrdered(s.tasks, ByEligible, s.ineligible, id);
      LoadSet(s.tasks, id, s.tasks[id]);
    }
  }

  /** A task that has just arrived from another CPU is not offered again, at any time and under any policy. */
  lemma ArrivalStays(b: Cpu, id: TaskId, t: Task, now: Nanos, threshold: Nanos, relax: bool)
    requires Inv(b) && id !in b.tasks && Ready(t)
    ensures var r := Admit(b, id, InTransit(t));
            id in r.tasks && !r.tasks[id].migrationReady && ChooseMigratable(r, now, threshold, relax) != Some(id)
  {
    hide Inv, Admit, ChooseMigratable, Dated;
    AdmitDoes(b, id, InTransit(t));
    ChooseMigratableFound(Admit(b, id, InTransit(t)), now, threshold, relax);
  }

  /** A removed task comes back unmarked, and its mark, its entry in the inbox and its weight are gone from the CPU. */
  lemma RemoveDoes(s: Cpu, id: TaskId)
    requires Inv(s) && id in s.tasks
    ensures var (r, removed) := RemoveTask(s, id);
            && removed == Some(s.tasks[id].(wakeQueued := false)) && r.tasks == s.tasks - {id}
            && r.totalWeight == s.totalWeight - (if Ready(s.tasks[id]) then AtLeastOne(s.tasks[id].meta.weight) else 0)
            && multiset(r.inbox) == multiset(s.inbox) - (if s.tasks[id].wakeQueued then multiset{id} else multiset{})
            && r.cpuId == s.cpuId && r.current == s.current && r.vtime == s.vtime
  {
    LoadSet(s.tasks, id, s.tasks[id]);
    WithoutOne(s.inbox, id);
  }

  lemma {:induction false} WithoutOne(q: seq<TaskId>, id: TaskId)
    ensures multiset(Without(q, id)) == multiset(q) - multiset{id}
    decreases |q|
  {
    if q != [] {
      assert q == [q[0]] + q[1..];
      if q[0] != id { WithoutOne(q[1..], id); }
    }
  }

  // ---- Cache heat

  /** A moment or a span as the `u64` it is stored in. */
  function Stored(t: Nanos): nat {
    Min(t, MAX_U64)
  }

  /** A task that stopped on this CPU at `stop` is hot on it until the threshold has passed, and on no other CPU. */
  lemma HotUntil(t: Task, cpu: nat, stop: Nanos, now: Nanos, threshold: Nanos)
    requires t.lastStop == Stored(stop)
    ensures CacheHot(t, cpu, now, threshold)
       <==> t.lastCpu == cpu && threshold > 0 && Stored(now) < Stored(stop) + Stored(threshold)
  {
  }

  /**
   A task preempted here at `stop` is not offered to another CPU before the threshold has passed unless the policy
   relaxes, and from then on it may be, exactly when it has run before and may move.
   */
  lemma PreemptedStaysHot(s: Cpu, stop: Nanos, now: Nanos, threshold: Nanos)
    requires Inv(s) && s.current.Some?
    ensures var id := s.current.value;
            var r := SavePreempted(s, true, Some(stop)).0;
            var hot := threshold > 0 && Stored(now) < Stored(stop) + Stored(threshold);
            && id in s.tasks && Queued(r, id) && Inv(r)
            && (Migratable(r, id, now, threshold, false)
                <==> s.tasks[id].migrationReady && s.tasks[id].migrationAllowed && !hot)
            && (Migratable(r, id, now, threshold, true)
                <==> s.tasks[id].migrationReady && s.tasks[id].migrationAllowed)
            && (hot ==> ChooseMigratable(r, now, threshold, false) != Some(id))
            && (!hot && s.tasks[id].migrationReady && s.tasks[id].migrationAllowed ==>
                  ChooseMigratable(r, now, threshold, false).Some?)
  {
    hide Inv, SavePreempted, ChooseMigratable, CacheHot;
    var id := s.current.value;
    var r := SavePreempted(s, true, Some(stop)).0;
    SavePreemptedDoes(s, Some(stop));
    SavePreemptedInv(s, true, Some(stop));
    HotUntil(r.tasks[id], r.cpuId, stop, now, threshold);
    ChooseMigratableFound(r, now, threshold, false);
    ChooseCold(r, now, threshold);
  }

  /** Without relaxing the policy, what is offered is cold. */
  lemma ChooseCold(s: Cpu, now: Nanos, threshold: Nanos)
    ensures var r := ChooseMigratable(s, now, threshold, false);
            r.Some? ==> Migratable(s, r.value, now, threshold, false)
  {
    hide Migratable;
    ChooseMigratableFound(s, now, threshold, false);
  }
}
