/** `pick_next` (kernel/src/sched/mod.rs) is work-conserving and deadline-correct. */
module Selection {
  import opened RunQueue
  import opened RunQueueInvariant

  /** By time, and by id among equal times. */
  predicate Sooner(x: nat, a: TaskId, y: nat, b: TaskId) {
    x < y || (x == y && a < b)
  }

  /** In every reachable state the eligible tree is sorted by deadline and the other by eligibility, then by id. */
  lemma TreesSorted(s: Cpu, i: nat, j: nat)
    requires Shape(s, {}) && i < j
    ensures j < |s.eligible| ==>
              var a, b := s.eligible[i], s.eligible[j];
              a in s.tasks && b in s.tasks && Sooner(s.tasks[a].meta.vdeadline, a, s.tasks[b].meta.vdeadline, b)
    ensures j < |s.ineligible| ==>
              var a, b := s.ineligible[i], s.ineligible[j];
              a in s.tasks && b in s.tasks && Sooner(s.tasks[a].meta.veligible, a, s.tasks[b].meta.veligible, b)
  {
    if j < |s.eligible| { assert Queued(s, s.eligible[i]) && Queued(s, s.eligible[j]); }
    if j < |s.ineligible| { assert Queued(s, s.ineligible[i]) && Queued(s, s.ineligible[j]); }
  }

  /** Every task in the eligible tree has really become eligible. */
  ghost predicate ClockAhead(s: Cpu) {
    forall id | id in s.eligible && id in s.tasks :: s.tasks[id].meta.veligible <= s.vtime
  }

  /** After promotion the ineligible tree holds exactly tasks of the future, and no task is lost or gained. */
  lemma {:induction false} PromoteSplits(s: Cpu)
    requires Shape(s, {})
    ensures forall id | id in Promote(s).ineligible :: id in s.tasks && s.tasks[id].meta.veligible > s.vtime
    ensures forall id :: Queued(Promote(s), id) <==> Queued(s, id)
    ensures forall id | id in s.eligible :: id in Promote(s).eligible
    ensures ClockAhead(s) ==> ClockAhead(Promote(s))
    decreases |s.ineligible|
  {
    if s.ineligible != [] {
      var id := s.ineligible[0];
      assert Queued(s, id);
      FrontLeaves(s.tasks, ByEligible, s.ineligible);
      if Key(s.tasks, ByEligible, id) <= s.vtime {
        var s1 := s.(ineligible := s.ineligible[1..], eligible := Insert(s.tasks, ByDeadline, s.eligible, id));
        PromoteOne(s);
        InsertOrdered(s.tasks, ByDeadline, s.eligible, id);
        PromoteSplits(s1);
      } else {
        forall x | x in s.ineligible ensures x in s.tasks && s.tasks[x].meta.veligible > s.vtime {
          assert Queued(s, x);
          if x != id { assert x in s.ineligible[1..]; }
        }
      }
    }
  }

  /** Jumping the clock to the front of the ineligible tree promotes that front, and skips no one. */
  lemma JumpToFront(s: Cpu)
    requires Shape(s, {}) && s.ineligible != [] && s.eligible == []
    ensures var first := s.ineligible[0];
            && first in s.tasks && Queued(s, first)
            && (forall id | Queued(s, id) :: id in s.tasks && s.tasks[id].meta.veligible >= s.tasks[first].meta.veligible)
            && Promote(s.(vtime := s.tasks[first].meta.veligible)).eligible != []
  {
    var first := s.ineligible[0];
    assert Queued(s, first);
    FrontLeaves(s.tasks, ByEligible, s.ineligible);
    forall id | Queued(s, id) ensures id in s.tasks && s.tasks[id].meta.veligible >= s.tasks[first].meta.veligible {
      if id != first { assert id in s.ineligible[1..]; }
    }
    var s2 := s.(vtime := s.tasks[first].meta.veligible);
    ClockShape(s, s2, {});
    PromoteSplits(s2);
    assert Queued(s2, first);
    assert Queued(Promote(s2), first);
  }

  lemma NoneQueued(s: Cpu)
    requires forall id :: !Queued(s, id)
    ensures s.eligible == [] && s.ineligible == []
  {
    if s.eligible != [] { assert Queued(s, s.eligible[0]); }
    if s.ineligible != [] { assert Queued(s, s.ineligible[0]); }
  }

  /** With nothing promoted, the clock jumps exactly to the earliest eligibility boundary. */
  lemma JumpSplits(s: Cpu)
    requires Shape(s, {})
    ensures var r := PromoteOrJump(s);
            && (forall id | id in r.ineligible :: id in s.tasks && s.tasks[id].meta.veligible > r.vtime)
            && (forall id :: Queued(r, id) <==> Queued(s, id))
            && (ClockAhead(s) ==> ClockAhead(r))
            && (r.eligible == [] ==> s.eligible == [] && s.ineligible == [])
            && (r.vtime > s.vtime ==>
                  && (forall id | Queued(s, id) :: id in s.tasks && s.tasks[id].meta.veligible >= r.vtime)
                  && (exists id :: Queued(s, id) && id in s.tasks && s.tasks[id].meta.veligible == r.vtime))
  {
    var s1 := Promote(s);
    PromoteInv(s);
    PromoteFields(s);
    PromoteSplits(s);
    if s1.eligible == [] {
      if s1.ineligible == [] {
        assert forall id :: !Queued(s, id);
        NoneQueued(s);
      } else {
        JumpToFront(s1);
        var s2 := s1.(vtime := s1.tasks[s1.ineligible[0]].meta.veligible);
        ClockShape(s1, s2, {});
        PromoteFields(s2);
        PromoteSplits(s2);
      }
    }
  }

  /**
   The picker returns a task exactly when one is queued, takes just that task off the trees, and no other
   queued task whose eligibility time has come has a smaller (deadline, id).
   */
  lemma PickNextCorrect(s: Cpu)
    requires Shape(s, {})
    ensures var (r, picked) := PickNext(s);
            && (picked.Some? <==> s.eligible != [] || s.ineligible != [])
            && s.vtime <= r.vtime
            && (picked.Some? ==>
                  && Queued(s, picked.value) && picked.value in s.tasks && r.current == picked
                  && (forall id :: Queued(r, id) <==> Queued(s, id) && id != picked.value)
                  && (forall id | Queued(s, id) && id != picked.value && s.tasks[id].meta.veligible <= r.vtime ::
                        Sooner(s.tasks[picked.value].meta.vdeadline, picked.value, s.tasks[id].meta.vdeadline, id))
                  && (ClockAhead(s) ==> s.tasks[picked.value].meta.veligible <= r.vtime))
  {
    var s1 := PromoteOrJump(s);
    PromoteOrJumpInv(s);
    PromoteKeeps(s);
    JumpSplits(s);
    if s1.eligible != [] {
      var id := s1.eligible[0];
      assert Queued(s1, id);
      FrontLeaves(s1.tasks, ByDeadline, s1.eligible);
      forall x | Queued(s, x) && x != id && s.tasks[x].meta.veligible <= s1.vtime
        ensures Sooner(s.tasks[id].meta.vdeadline, id, s.tasks[x].meta.vdeadline, x)
      {
        assert Queued(s1, x);
        assert x in s1.eligible[1..];
      }
    }
  }

  /** A promoted task is one whose time has come. */
  lemma {:induction false} PromoteTakes(s: Cpu, id: TaskId)
    requires id in Promote(s).eligible && id !in s.eligible
    ensures id in s.ineligible && Key(s.tasks, ByEligible, id) <= s.vtime
    decreases |s.ineligible|
  {
    if s.ineligible != [] && Key(s.tasks, ByEligible, s.ineligible[0]) <= s.vtime {
      var first := s.ineligible[0];
      var s1 := s.(ineligible := s.ineligible[1..], eligible := Insert(s.tasks, ByDeadline, s.eligible, first));
      InsertAdds(s.tasks, ByDeadline, s.eligible, first, id);
      if id !in s1.eligible { PromoteTakes(s1, id); }
    }
  }

  lemma {:induction false} InsertAdds(tasks: map<TaskId, Task>, order: Order, tree: seq<TaskId>, id: TaskId, x: TaskId)
    ensures x in Insert(tasks, order, tree, id) ==> x == id || x in tree
    decreases |tree|
  {
    if tree != [] && !Before(tasks, order, id, tree[0]) { InsertAdds(tasks, order, tree[1..], id, x); }
  }

  /** Queued, and either its time has come or the eligible tree holds it already. */
  predicate InLine(s: Cpu, id: TaskId) {
    id in s.tasks && (id in s.eligible || (id in s.ineligible && s.tasks[id].meta.veligible <= s.vtime))
  }

  /** It has an earlier deadline than the running task, or the running task has used up its slice. */
  predicate Beats(s: Cpu, id: TaskId)
    requires s.current.Some?
  {
    && s.current.value in s.tasks && id in s.tasks
    && var m := s.tasks[s.current.value].meta;
       s.tasks[id].meta.vdeadline < m.vdeadline || m.execRuntime >= m.slice
  }

  predicate Outranks(s: Cpu, id: TaskId)
    requires s.current.Some?
  {
    Beats(s, id) && s.tasks[id].meta.veligible <= s.vtime
  }

  /** Promotion changes nobody's place in line, and the eligible tree then holds the line. */
  lemma PromoteKeepsLine(s: Cpu, id: TaskId)
    requires Shape(s, {})
    ensures (InLine(Promote(s), id) <==> InLine(s, id)) && (InLine(s, id) <==> id in Promote(s).eligible)
  {
    PromoteFields(s);
    PromoteSplits(s);
    assert Queued(Promote(s), id) <==> Queued(s, id);
    if id in Promote(s).eligible && id !in s.eligible { PromoteTakes(s, id); }
  }

  /** In a truthful tree, the tasks in line are the queued tasks whose time has come. */
  lemma LineIsTruthful(s: Cpu)
    requires Inv(s) && ClockAhead(s) && s.current.Some?
    ensures (exists id :: InLine(s, id) && Beats(s, id)) <==> (exists id :: Queued(s, id) && Outranks(s, id))
  {
    forall id ensures InLine(s, id) && Beats(s, id) <==> Queued(s, id) && Outranks(s, id) {
    }
  }

  /**
   The preemption test leaves everything but the trees alone, and asks for a switch exactly when some task in line
   beats the running one. Against a truthful eligible tree that is some queued task whose time has come.
   */
  lemma ShouldPreemptCorrect(s: Cpu)
    requires Inv(s) && s.current.Some?
    ensures var (r, preempt) := ShouldPreempt(s);
            && r == s.(eligible := r.eligible, ineligible := r.ineligible)
            && (forall id :: (Queued(r, id) <==> Queued(s, id)) && (InLine(r, id) <==> InLine(s, id)))
            && (preempt <==> exists id :: InLine(s, id) && Beats(s, id))
            && (ClockAhead(s) ==> (preempt <==> exists id :: Queued(s, id) && Outranks(s, id)))
  {
    hide InLine, ClockAhead, Outranks;
    PromoteInv(s);
    PromoteFields(s);
    PromoteSplits(s);
    var s1 := Promote(s);
    forall id ensures (InLine(s1, id) <==> InLine(s, id)) && (InLine(s, id) <==> id in s1.eligible) {
      PromoteKeepsLine(s, id);
    }
    if s1.eligible != [] {
      assert Queued(s1, s1.eligible[0]);
      FrontLeaves(s1.tasks, ByDeadline, s1.eligible);
    }
    if ClockAhead(s) { LineIsTruthful(s); }
  }
}
