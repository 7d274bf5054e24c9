/** Every run of object creation and subtree removal. */
module RegistryRuns {
  import opened Prelude
  import opened Registry

  // ---- Indices

  /** `IndexAllocator::allocate`: the oldest reclaimed index, or a new one. */
  function Allocate(s: State): (Index, State) {
    if s.reclaimed != [] then (s.reclaimed[0], s.(reclaimed := s.reclaimed[1..]))
    else (s.next, s.(next := s.next + 1))
  }

  /** An index handed out is in no use, and what waits stays apart from what is used. */
  lemma AllocateIsFresh(s: State)
    requires IndicesInv(s)
    ensures var (id, t) := Allocate(s);
            && id !in s.objects && id !in t.reclaimed && id < t.next
            && IndicesInv(t) && t.objects == s.objects && s.next <= t.next
  {
    var (id, t) := Allocate(s);
    forall x | x in t.reclaimed ensures x in s.reclaimed && x != id {
      var k :| 0 <= k < |t.reclaimed| && t.reclaimed[k] == x;
      if s.reclaimed != [] { assert s.reclaimed[k + 1] == x; }
    }
  }

  // ---- Creation

  /** A new child under a name its parent does not use yet. */
  function Create(s: State, parent: Index, name: string): State
    requires parent in s.objects
  {
    var (id, t) := Allocate(s);
    var p := s.objects[parent];
    t.(objects := s.objects[id := Object(Some(parent), name, true, map[])][parent := p.(children := p.children[name := id])])
  }

  lemma CreateInv(s: State, parent: Index, name: string)
    requires Inv(s) && parent in s.objects && name !in s.objects[parent].children
    ensures Inv(Create(s, parent, name))
  {
    AllocateIsFresh(s);
    var (id, t) := Allocate(s);
    hide Allocate;
    var s' := Create(s, parent, name);
    var o, o' := s.objects, s'.objects;
    forall p, n | p in o' && n in o'[p].children ensures EntryInv(o', p, n) {
      if p != id && (p, n) != (parent, name) { assert EntryInv(o, p, n); }
    }
  }

  // ---- Removal

  /** A descendant's only parent is a descendant too. */
  lemma ParentDescends(o: Objects, id: Index, p: Index, n: string)
    requires Linked(o) && p in o && n in o[p].children && Descends(o, id, o[p].children[n])
    ensures o[p].children[n] == id || Descends(o, id, p)
  {
    var c := o[p].children[n];
    assert EntryInv(o, p, n);
    var path :| Path(o, path, id, c);
    if |path| > 1 {
      var q := path[|path| - 2];
      assert Edge(o, q, path[|path| - 1]);
      var m :| m in o[q].children && o[q].children[m] == c;
      assert EntryInv(o, q, m);
      assert Path(o, path[..|path| - 1], id, p);
    }
  }

  /** Whoever lists a removed object as a child is gone too, or no longer lists it. */
  lemma ParentOfGone(s: State, id: Index, gone: seq<Index>, s': State, p: Index, n: string)
    requires Inv(s) && id in s.objects && Removed(s, id, gone, s')
    requires p in s'.objects && n in s'.objects[p].children
    ensures s'.objects[p].children[n] !in gone
  {
    UnlinkedKeeps(s.objects, id, p);
    assert EntryInv(s.objects, p, n);
    hide Descends, Unlinked;
    if s'.objects[p].children[n] in gone { ParentDescends(s.objects, id, p, n); }
  }

  lemma UnlinkedKeeps(o: Objects, id: Index, p: Index)
    requires id in o && p in o
    ensures Unlinked(o, id).Keys == o.Keys
    ensures var x, y := o[p], Unlinked(o, id)[p];
            && x.parent == y.parent && x.name == y.name && x.active == y.active
            && (forall n | n in y.children :: n in x.children && x.children[n] == y.children[n])
            && (o[id].parent == Some(p) && o[id].name in y.children ==> y.children[o[id].name] != id)
  {
  }

  /** A removal leaves a well-formed registry in which nothing names a removed object. */
  lemma RemovedInv(s: State, id: Index, gone: seq<Index>, s': State)
    requires Inv(s) && id in s.objects && Removed(s, id, gone, s')
    ensures Inv(s')
    ensures forall p, n | p in s'.objects && n in s'.objects[p].children :: s'.objects[p].children[n] !in gone
  {
    RemovedLinked(s, id, gone, s');
    RemovedIndices(s, id, gone, s');
    forall p | p in s'.objects ensures s'.objects[p].active { UnlinkedKeeps(s.objects, id, p); }
    forall p, n | p in s'.objects && n in s'.objects[p].children ensures s'.objects[p].children[n] !in gone {
      ParentOfGone(s, id, gone, s', p, n);
    }
  }

  lemma RemovedLinked(s: State, id: Index, gone: seq<Index>, s': State)
    requires Inv(s) && id in s.objects && Removed(s, id, gone, s')
    ensures Linked(s'.objects)
  {
    var o, o' := s.objects, s'.objects;
    forall p, n | p in o' && n in o'[p].children ensures EntryInv(o', p, n) {
      ParentOfGone(s, id, gone, s', p, n);
      UnlinkedKeeps(o, id, p);
      assert EntryInv(o, p, n);
      UnlinkedKeeps(o, id, o[p].children[n]);
    }
  }

  lemma GoneWereActive(s: State, id: Index, gone: seq<Index>, s': State, x: Index)
    requires id in s.objects && Removed(s, id, gone, s') && x in gone
    ensures ActiveIn(s.objects, x)
  {
    var path :| Path(s.objects, path, id, x);
    assert ActiveIn(s.objects, path[|path| - 1]);
  }

  lemma RemovedIndices(s: State, id: Index, gone: seq<Index>, s': State)
    requires Inv(s) && id in s.objects && Removed(s, id, gone, s')
    ensures IndicesInv(s')
  {
    UnlinkedKeeps(s.objects, id, id);
    forall x | x in gone ensures x in s.objects { GoneWereActive(s, id, gone, s', x); }
    hide Unlinked, Descends;
    forall x | x in s'.reclaimed ensures x < s'.next && x !in s'.objects {
      assert x in s.reclaimed || x in gone;
    }
    AppendApart(s.reclaimed, gone);
  }

  lemma AppendApart(a: seq<Index>, b: seq<Index>)
    requires NoDup(a) && NoDup(b) && forall x | x in a :: x !in b
    ensures NoDup(a + b)
  {
    var s := a + b;
    forall i, j | 0 <= i < j < |s| ensures s[i] != s[j] {
      assert i < |a| <= j ==> s[i] in a && s[j] in b;
    }
  }

  // ---- Runs

  ghost predicate Next(s: State, s': State) {
    || (exists parent, name | parent in s.objects && name !in s.objects[parent].children :: s' == Create(s, parent, name))
    || (exists id, gone | id in s.objects :: Removed(s, id, gone, s'))
  }

  const INITIAL: State := State(map[0 := Object(None, "", true, map[])], 1, [])

  ghost predicate Run(states: seq<State>) {
    states != [] && states[0] == INITIAL && forall k | 0 < k < |states| :: Next(states[k - 1], states[k])
  }

  lemma NextInv(s: State, s': State)
    requires Inv(s) && Next(s, s')
    ensures Inv(s')
  {
    if parent, name :| parent in s.objects && name !in s.objects[parent].children && s' == Create(s, parent, name) {
      CreateInv(s, parent, name);
    } else {
      var id, gone :| id in s.objects && Removed(s, id, gone, s');
      RemovedInv(s, id, gone, s');
    }
  }

  /** Every reachable registry is well formed, and the next index it would hand out is in no use. */
  lemma {:induction false} RunKeepsInv(states: seq<State>)
    requires Run(states)
    ensures Inv(states[|states| - 1])
    ensures Allocate(states[|states| - 1]).0 !in states[|states| - 1].objects
    decreases |states|
  {
    var last := |states| - 1;
    if last > 0 {
      assert Run(states[..last]);
      RunKeepsInv(states[..last]);
      assert Next(states[last - 1], states[last]);
      NextInv(states[last - 1], states[last]);
    }
    AllocateIsFresh(states[last]);
  }
}
