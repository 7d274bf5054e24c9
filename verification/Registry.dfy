/** The object registry of library/object/src/registry.rs on values: objects, their children, and their indices. */
module Registry {
  import opened Prelude

  type Index = nat

  datatype Object = Object(parent: Option<Index>, name: string, active: bool, children: map<string, Index>)

  type Objects = map<Index, Object>

  datatype State = State(objects: Objects, next: Index, reclaimed: seq<Index>)

  // ---- Descendants

  predicate Edge(o: Objects, p: Index, c: Index) {
    p in o && exists n | n in o[p].children :: o[p].children[n] == c
  }

  predicate ActiveIn(o: Objects, x: Index) {
    x in o && o[x].active
  }

  /** A way down through active objects. */
  predicate Path(o: Objects, path: seq<Index>, from: Index, to: Index) {
    && path != [] && path[0] == from && path[|path| - 1] == to
    && (forall k | 0 <= k < |path| :: ActiveIn(o, path[k]))
    && (forall k | 0 < k < |path| :: Edge(o, path[k - 1], path[k]))
  }

  /** The object itself, or below it. */
  ghost predicate Descends(o: Objects, from: Index, to: Index) {
    exists path: seq<Index> :: Path(o, path, from, to)
  }

  /** Taken off its parent's list of children, if that list names it. */
  function Unlinked(o: Objects, id: Index): Objects
    requires id in o
  {
    var x := o[id];
    if x.parent.Some? && x.parent.value in o && x.name in o[x.parent.value].children
       && o[x.parent.value].children[x.name] == id
    then o[x.parent.value := o[x.parent.value].(children := o[x.parent.value].children - {x.name})]
    else o
  }

  /** What a removal should leave: the object and its descendants gone, their indices back, each once. */
  ghost predicate Removed(s: State, id: Index, gone: seq<Index>, s': State)
    requires id in s.objects
  {
    && NoDup(gone)
    && (forall x: Index :: x in gone <==> Descends(s.objects, id, x))
    && s' == State(Unlinked(s.objects, id) - (set x | x in gone), s.next, s.reclaimed + gone)
  }

  // ---- Well-formed registries

  /** The entry and the child agree. */
  predicate EntryInv(o: Objects, p: Index, n: string)
    requires p in o && n in o[p].children
  {
    var c := o[p].children[n];
    c in o && o[c].parent == Some(p) && o[c].name == n
  }

  ghost predicate Linked(o: Objects) {
    forall p, n | p in o && n in o[p].children :: EntryInv(o, p, n)
  }

  predicate AllActive(o: Objects) {
    forall x | x in o :: o[x].active
  }

  /** Indices in use and indices to reuse are apart, below the counter, and none waits twice. */
  ghost predicate IndicesInv(s: State) {
    && (forall x | x in s.objects :: x < s.next)
    && (forall x | x in s.reclaimed :: x < s.next && x !in s.objects)
    && NoDup(s.reclaimed)
  }

  ghost predicate Inv(s: State) {
    Linked(s.objects) && AllActive(s.objects) && IndicesInv(s)
  }

  // ---- Reachability

  lemma DescendsSelf(o: Objects, id: Index)
    requires ActiveIn(o, id)
    ensures Descends(o, id, id)
  {
    assert Path(o, [id], id, id);
  }

  lemma DescendsChild(o: Objects, id: Index, p: Index, c: Index)
    requires Descends(o, id, p) && Edge(o, p, c) && ActiveIn(o, c)
    ensures Descends(o, id, c)
  {
    var path :| Path(o, path, id, p);
    var longer := path + [c];
    forall k | 0 < k < |longer| ensures Edge(o, longer[k - 1], longer[k]) {
      if k < |path| { assert Edge(o, path[k - 1], path[k]); }
    }
    assert Path(o, longer, id, c);
  }

  /** Closed under going down. */
  ghost predicate Closed(o: Objects, s: seq<Index>) {
    forall p, c | p in s && Edge(o, p, c) && ActiveIn(o, c) :: c in s
  }

  lemma {:induction false} ClosedHoldsPath(o: Objects, s: seq<Index>, path: seq<Index>, from: Index, to: Index)
    requires Closed(o, s) && from in s && Path(o, path, from, to)
    ensures to in s
    decreases |path|
  {
    if |path| > 1 {
      var init := path[..|path| - 1];
      assert Path(o, init, from, init[|init| - 1]);
      ClosedHoldsPath(o, s, init, from, init[|init| - 1]);
      assert Edge(o, path[|path| - 2], path[|path| - 1]);
    }
  }

  /** A closed set of descendants that holds the object holds exactly its descendants. */
  lemma ClosedIsDescendants(o: Objects, id: Index, s: seq<Index>)
    requires id in s && Closed(o, s) && forall x | x in s :: Descends(o, id, x)
    ensures forall x: Index :: x in s <==> Descends(o, id, x)
  {
    forall x: Index | Descends(o, id, x) ensures x in s {
      var path :| Path(o, path, id, x);
      ClosedHoldsPath(o, s, path, id, x);
    }
  }

  /** Unlinking drops at most the edge to the object itself. */
  lemma UnlinkedEdge(o: Objects, id: Index, p: Index, c: Index)
    requires id in o
    ensures Unlinked(o, id).Keys == o.Keys
    ensures forall x | x in o :: Unlinked(o, id)[x].active == o[x].active
    ensures Edge(Unlinked(o, id), p, c) ==> Edge(o, p, c)
    ensures Edge(o, p, c) && c != id ==> Edge(Unlinked(o, id), p, c)
  {
    var u := Unlinked(o, id);
    if Edge(o, p, c) && c != id {
      var n :| n in o[p].children && o[p].children[n] == c;
      assert n in u[p].children;
    }
    if Edge(u, p, c) {
      var n :| n in u[p].children && u[p].children[n] == c;
      assert n in o[p].children;
    }
  }
}
