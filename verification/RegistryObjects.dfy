/** The registry of library/object/src/registry.rs as it runs: a layer visit that marks, then a pass that reclaims. */
module RegistryObjects {
  import opened Prelude
  import opened Registry
  import RegistryRuns

  /** The objects with those in `marked` no longer active. */
  predicate MarkedAs(o: Objects, objects: Objects, marked: seq<Index>) {
    && objects.Keys == o.Keys
    && forall x | x in o :: objects[x] == o[x].(active := o[x].active && x !in marked)
  }

  function Reversed(s: seq<Index>): (r: seq<Index>)
    ensures |r| == |s|
  {
    if s == [] then [] else [s[|s| - 1]] + Reversed(s[..|s| - 1])
  }

  lemma {:induction false} ReversedAt(s: seq<Index>, i: nat)
    requires i < |s|
    ensures Reversed(s)[i] == s[|s| - 1 - i]
    decreases |s|
  {
    if i > 0 { ReversedAt(s[..|s| - 1], i - 1); }
  }

  lemma ReversedSame(s: seq<Index>)
    ensures NoDup(s) ==> NoDup(Reversed(s))
    ensures forall x :: x in Reversed(s) <==> x in s
  {
    forall i | 0 <= i < |s| ensures Reversed(s)[i] == s[|s| - 1 - i] && s[i] == Reversed(s)[|s| - 1 - i] {
      ReversedAt(s, i);
      ReversedAt(s, |s| - 1 - i);
    }
    hide Reversed;
    if NoDup(s) {
      forall i, j | 0 <= i < j < |s| ensures Reversed(s)[i] != Reversed(s)[j] {
        assert s[|s| - 1 - j] != s[|s| - 1 - i];
      }
    }
    forall x | x in s ensures x in Reversed(s) {
      var i :| 0 <= i < |s| && s[i] == x;
      assert Reversed(s)[|s| - 1 - i] == x;
    }
  }

  /** A sequence without repetition is no longer than a set that holds it. */
  lemma {:induction false} NoMoreThan(s: seq<Index>, within: set<Index>)
    requires NoDup(s) && forall x | x in s :: x in within
    ensures |s| <= |within|
    decreases |s|
  {
    if s != [] {
      var n := |s| - 1;
      assert forall x | x in s[..n] :: x in within - {s[n]};
      NoMoreThan(s[..n], within - {s[n]});
    }
  }

  /** What the layer visit has reached: `m` in the order marked, the first `k` of them visited. */
  ghost predicate Sweep(o: Objects, id: Index, objects: Objects, m: seq<Index>, k: nat) {
    && id in o && id in m && k <= |m|
    && MarkedAs(Unlinked(o, id), objects, m)
    && NoDup(m)
    && (forall x | x in m :: ActiveIn(o, x) && Descends(o, id, x))
    && (forall p, c | p in m[..k] && Edge(o, p, c) && ActiveIn(o, c) :: c in m)
  }

  lemma SweepBounds(o: Objects, id: Index, objects: Objects, m: seq<Index>, k: nat)
    requires Sweep(o, id, objects, m, k)
    ensures id in o && k <= |m| <= |o| && MarkedAs(Unlinked(o, id), objects, m) && NoDup(m)
    ensures forall x | x in m :: x in Unlinked(o, id)
  {
    UnlinkedEdge(o, id, id, id);
    NoMoreThan(m, o.Keys);
  }

  /** One object visited: its active children join. */
  lemma SweepStep(o: Objects, id: Index, objects: Objects, m: seq<Index>, k: nat, added: seq<Index>, objects': Objects)
    requires Sweep(o, id, objects, m, k) && k < |m|
    requires MarkedAs(Unlinked(o, id), objects', m + added) && NoDup(m + added)
    requires forall c | c in added :: Edge(Unlinked(o, id), m[k], c) && ActiveIn(Unlinked(o, id), c)
    requires forall c | Edge(Unlinked(o, id), m[k], c) && ActiveIn(Unlinked(o, id), c) :: c in m + added
    ensures Sweep(o, id, objects', m + added, k + 1)
  {
    var m' := m + added;
    forall x | x in added ensures ActiveIn(o, x) && Descends(o, id, x) {
      UnlinkedEdge(o, id, m[k], x);
      DescendsChild(o, id, m[k], x);
    }
    hide Descends, MarkedAs;
    forall p, c | p in m'[..k + 1] && Edge(o, p, c) && ActiveIn(o, c) ensures c in m' {
      UnlinkedEdge(o, id, p, c);
      assert p == m[k] || p in m[..k];
    }
  }

  lemma SweepStart(o: Objects, id: Index)
    requires ActiveIn(o, id)
    ensures id in Unlinked(o, id) && Unlinked(o, id)[id].active
    ensures var u := Unlinked(o, id); Sweep(o, id, u[id := u[id].(active := false)], [id], 0)
  {
    UnlinkedEdge(o, id, id, id);
    DescendsSelf(o, id);
  }

  /** When everything marked has been visited, the descendants have been marked and nothing else. */
  lemma SweepDone(s: State, id: Index, objects: Objects, m: seq<Index>, s': State)
    requires Sweep(s.objects, id, objects, m, |m|)
    requires s' == State(objects - (set x | x in Reversed(m)), s.next, s.reclaimed + Reversed(m))
    ensures Removed(s, id, Reversed(m), s')
  {
    SweepClosed(s.objects, id, objects, m);
    ReversedSame(m);
    hide Descends, Reversed, Unlinked;
    SameAfter(Unlinked(s.objects, id), objects, m, Reversed(m));
  }

  lemma SweepClosed(o: Objects, id: Index, objects: Objects, m: seq<Index>)
    requires Sweep(o, id, objects, m, |m|)
    ensures forall x: Index :: x in m <==> Descends(o, id, x)
  {
    hide MarkedAs, NoDup, Unlinked;
    assert m[..|m|] == m;
    assert Closed(o, m);
    ClosedIsDescendants(o, id, m);
  }

  /** Marking changes nothing about the objects that stay. */
  lemma SameAfter(u: Objects, objects: Objects, m: seq<Index>, gone: seq<Index>)
    requires MarkedAs(u, objects, m) && forall x :: x in gone <==> x in m
    ensures objects - (set x | x in gone) == u - (set x | x in gone)
  {
  }

  class ObjectRegistry {
    var objects: Objects
    var next: Index
    var reclaimed: seq<Index>

    ghost function Value(): State
      reads this
    {
      State(objects, next, reclaimed)
    }

    constructor ()
      ensures Value() == State(map[], 1, [])
    {
      objects, next, reclaimed := map[], 1, [];
    }

    /** `allocate`. */
    method Allocate() returns (id: Index)
      modifies this`next, this`reclaimed
      ensures (id, Value()) == RegistryRuns.Allocate(old(Value()))
    {
      if reclaimed != [] {
        id := reclaimed[0];
        reclaimed := reclaimed[1..];
      } else {
        id := next;
        next := next + 1;
      }
    }

    /** The entry in the parent's list goes, if it names this object. */
    method UnlinkFromParent(id: Index)
      requires id in objects
      modifies this`objects
      ensures objects == Unlinked(old(objects), id)
    {
      var x := objects[id];
      if x.parent.Some? {
        var p := x.parent.value;
        if p in objects && x.name in objects[p].children && objects[p].children[x.name] == id {
          objects := objects[p := objects[p].(children := objects[p].children - {x.name})];
        }
      }
    }

    /** The children of `p` that are still active are marked, and returned to be visited. */
    method MarkChildren(p: Index, ghost o: Objects, ghost m: seq<Index>) returns (added: seq<Index>)
      requires p in o && MarkedAs(o, objects, m) && NoDup(m)
      modifies this`objects
      ensures MarkedAs(o, objects, m + added) && NoDup(m + added)
      ensures forall c | c in added :: Edge(o, p, c) && ActiveIn(o, c)
      ensures forall c | Edge(o, p, c) && ActiveIn(o, c) :: c in m + added
    {
      added := [];
      var children := objects[p].children;
      var names := children.Keys;
      assert m + added == m;
      while names != {}
        invariant names <= children.Keys && children == o[p].children
        invariant MarkedAs(o, objects, m + added) && NoDup(m + added)
        invariant forall c | c in added :: Edge(o, p, c) && ActiveIn(o, c)
        invariant forall n | n in children.Keys - names && ActiveIn(o, children[n]) :: children[n] in m + added
        decreases names
      {
        var n :| n in names;
        names := names - {n};
        var c := children[n];
        if c in objects && objects[c].active {
          assert Edge(o, p, c);
          assert m + (added + [c]) == (m + added) + [c];
          objects := objects[c := objects[c].(active := false)];
          added := added + [c];
        }
      }
    }

    /**
     `remove_internal`. An object already being destroyed is refused. Otherwise exactly the object and its
     descendants leave the registry and each of their indices is reclaimed once.
     */
    method RemoveInternal(id: Index) returns (ok: bool, ghost gone: seq<Index>)
      requires id in objects
      modifies this
      ensures ok == old(objects)[id].active
      ensures !ok ==> Value() == old(Value()).(objects := Unlinked(old(objects), id))
      ensures ok ==> Removed(old(Value()), id, gone, Value())
    {
      ghost var s, o := Value(), objects;
      UnlinkedEdge(o, id, id, id);
      hide Unlinked, Removed;
      UnlinkFromParent(id);
      if !objects[id].active { return false, []; }
      SweepStart(o, id);
      hide Sweep;
      objects := objects[id := objects[id].(active := false)];
      var visited, m := Visit(id, o);
      ghost var marked := objects;
      Reclaim(visited);
      SweepDone(s, id, marked, m, Value());
      return true, visited;
    }

    /** The layer visit. */
    method Visit(id: Index, ghost o: Objects) returns (visited: seq<Index>, ghost m: seq<Index>)
      requires Sweep(o, id, objects, [id], 0)
      modifies this`objects
      ensures Sweep(o, id, objects, m, |m|) && visited == Reversed(m)
    {
      hide Sweep, Unlinked, MarkedAs, Edge, NoDup;
      ghost var k := 0;
      m := [id];
      visited := [];
      var queue := [id];
      while queue != []
        invariant k <= |m| && Sweep(o, id, objects, m, k)
        invariant queue == m[k..] && visited == Reversed(m[..k])
        decreases |o| - k
      {
        SweepBounds(o, id, objects, m, k);
        var p := queue[0];
        assert p == m[k];
        ghost var before := objects;
        var added := MarkChildren(p, Unlinked(o, id), m);
        SweepStep(o, id, before, m, k, added, objects);
        assert (m + added)[..k + 1][..k] == m[..k];
        queue := queue[1..] + added;
        visited := [p] + visited;
        m, k := m + added, k + 1;
      }
      assert m[..k] == m;
    }

    /** The visited objects leave the map and give their indices back. */
    method Reclaim(gone: seq<Index>)
      modifies this`objects, this`reclaimed
      ensures objects == old(objects) - (set x | x in gone)
      ensures reclaimed == old(reclaimed) + gone
    {
      for i := 0 to |gone|
        invariant objects == old(objects) - (set x | x in gone[..i])
        invariant reclaimed == old(reclaimed) + gone[..i]
      {
        assert gone[..i + 1] == gone[..i] + [gone[i]];
        objects := objects - {gone[i]};
        reclaimed := reclaimed + [gone[i]];
      }
      assert gone[..|gone|] == gone;
    }
  }
}
