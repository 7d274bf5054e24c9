/** The boot heap of kernel/src/memory/early.rs as it runs: headers linked through the free memory itself. */
module EarlyObjects {
  import opened Prelude
  import opened Arithmetic
  import opened EarlyHeap
  import opened EarlyRuns
  import Arenas

  /** The header at the start of a free region; address 0 is the null pointer. */
  datatype Node = Node(next: nat, size: nat)

  type Headers = map<nat, Node>

  function StartOf(list: seq<Region>, k: nat): nat {
    if k < |list| then list[k].start else 0
  }

  /** The headers from `head` on spell out the list. */
  predicate Chain(head: nat, nodes: Headers, list: seq<Region>) {
    && head == StartOf(list, 0)
    && (forall k {:trigger Linked(nodes, list, k)} | 0 <= k < |list| :: Linked(nodes, list, k))
  }

  /** Entry k has its header, and the header names the entry after it. */
  predicate Linked(nodes: Headers, list: seq<Region>, k: nat)
    requires k < |list|
  {
    list[k].start in nodes && nodes[list[k].start] == Node(StartOf(list, k + 1), list[k].size)
  }

  lemma StartsDiffer(list: seq<Region>, i: nat, j: nat)
    requires FreeList(list) && i < |list| && j < |list|
    ensures list[i].start > 0 && (i != j ==> list[i].start != list[j].start)
  {
    assert WellSized(list[i]) && WellSized(list[j]);
  }

  lemma EndOfList(list: seq<Region>, k: nat)
    requires FreeList(list) && k <= |list| && StartOf(list, k) == 0
    ensures k == |list|
  {
    assert forall i | 0 <= i < |list| :: WellSized(list[i]);
  }

  /** A new header linked in after entry i. */
  lemma ChainInsert(head: nat, nodes: Headers, list: seq<Region>, i: nat, r: Region, nodes': Headers)
    requires Chain(head, nodes, list) && FreeList(list) && i < |list| && Linked(nodes, list, i)
    requires forall k | 0 <= k < |list| :: list[k].start != r.start
    requires nodes' == nodes[r.start := Node(nodes[list[i].start].next, r.size)][list[i].start := Node(r.start, list[i].size)]
    ensures Chain(head, nodes', list[..i + 1] + [r] + list[i + 1..])
  {
    hide FreeList;
    var t := list[..i + 1] + [r] + list[i + 1..];
    forall k | 0 <= k < |t| ensures Linked(nodes', t, k) {
      InsertedAt(list, i, r, k);
      var l := if k <= i then k else k - 1;
      assert Linked(nodes, list, l);
      StartsDiffer(list, l, i);
    }
  }

  /** Entry k after an insertion behind entry i, and the one after it. */
  lemma InsertedAt(list: seq<Region>, i: nat, r: Region, k: nat)
    requires i < |list| && k < |list| + 1
    ensures var t := list[..i + 1] + [r] + list[i + 1..];
            && t[k] == (if k <= i then list[k] else if k == i + 1 then r else list[k - 1])
            && StartOf(t, k + 1) == if k < i then StartOf(list, k + 1) else if k == i then r.start else StartOf(list, k)
  {
  }

  lemma RemovedAt(list: seq<Region>, i: nat, k: nat)
    requires i < |list| && k < |list| - 1
    ensures var t := list[..i] + list[i + 1..];
            && t[k] == (if k < i then list[k] else list[k + 1])
            && StartOf(t, k + 1) == if k + 1 < i then StartOf(list, k + 1) else StartOf(list, k + 2)
  {
  }

  /** Entry i shortened from above. */
  lemma ChainShrink(head: nat, nodes: Headers, list: seq<Region>, i: nat, size: nat, nodes': Headers)
    requires Chain(head, nodes, list) && FreeList(list) && i < |list| && Linked(nodes, list, i)
    requires nodes' == nodes[list[i].start := nodes[list[i].start].(size := size)]
    ensures Chain(head, nodes', list[..i] + [Region(list[i].start, size)] + list[i + 1..])
  {
    var t := list[..i] + [Region(list[i].start, size)] + list[i + 1..];
    forall k | 0 <= k < |t| ensures Linked(nodes', t, k) {
      assert Linked(nodes, list, k) && t[k].start == list[k].start && StartOf(t, k + 1) == StartOf(list, k + 1);
      StartsDiffer(list, k, i);
    }
  }

  /** Entry i unlinked. */
  lemma ChainRemove(head: nat, nodes: Headers, list: seq<Region>, i: nat, head': nat, nodes': Headers)
    requires Chain(head, nodes, list) && FreeList(list) && i < |list| && Linked(nodes, list, i)
    requires if i == 0 then head' == nodes[list[0].start].next && nodes' == nodes
             else head' == head && nodes' == nodes[list[i - 1].start := Node(nodes[list[i].start].next, list[i - 1].size)]
    ensures Chain(head', nodes', list[..i] + list[i + 1..])
  {
    hide FreeList;
    var t := list[..i] + list[i + 1..];
    forall k | 0 <= k < |t| ensures Linked(nodes', t, k) {
      RemovedAt(list, i, k);
      var l := if k < i then k else k + 1;
      assert Linked(nodes, list, l);
      if i > 0 { StartsDiffer(list, l, i - 1); }
    }
  }

  lemma HeadInsert(head: nat, nodes: Headers, list: seq<Region>, r: Region)
    requires Chain(head, nodes, list) && r.start in nodes && nodes[r.start].size == r.size
    requires forall k | 0 <= k < |list| :: list[k].start != r.start
    ensures Chain(r.start, nodes[r.start := nodes[r.start].(next := head)], [r] + list)
  {
    var t, nodes' := [r] + list, nodes[r.start := nodes[r.start].(next := head)];
    forall k | 0 <= k < |t| ensures Linked(nodes', t, k) {
      if k > 0 { assert Linked(nodes, list, k - 1); }
    }
  }

  /** The walk down the list passes entries above the new one. */
  lemma BelowStep(list: seq<Region>, i: nat, r: Region)
    requires i + 1 < |list| && list[i + 1].start > r.start
    ensures list[..i + 1] + InsertBelow(list[i + 1..], r) == list[..i + 2] + InsertBelow(list[i + 2..], r)
  {
    assert list[i + 1..][1..] == list[i + 2..];
    assert list[..i + 1] + ([list[i + 1]] + InsertBelow(list[i + 2..], r)) == list[..i + 2] + InsertBelow(list[i + 2..], r);
  }

  /** Where the search stops is where the block is taken. */
  lemma TakenHere(list: seq<Region>, size: nat, align: nat, i: nat)
    requires align > 0 && i < |list| && Place(list[i], size, align).Some?
    requires forall j | 0 <= j < i :: Place(list[j], size, align) == None
    ensures TakenFrom(list, size, align, i)
  {
    var k := AllocIs(list, size, align);
  }

  class EarlyAllocator {
    var head: nat
    var nodes: Headers
    /** The free list the headers spell out. */
    ghost var list: seq<Region>

    ghost predicate Valid()
      reads this
    {
      FreeList(list) && Chain(head, nodes, list)
    }

    constructor ()
      ensures Valid() && list == []
    {
      head := 0;
      nodes := map[];
      list := [];
    }

    /** `insert_node`, for a header already written at the start of its region. */
    method InsertNode(p: nat, ghost r: Region)
      requires Valid() && WellSized(r) && ApartFromAll(r, list)
      requires p == r.start && p in nodes && nodes[p].size == r.size
      modifies this
      ensures Valid() && list == Insert(old(list), r)
    {
      InsertKeeps(list, r);
      forall k | 0 <= k < |list| ensures list[k].start != p { assert Apart(r, list[k]) && WellSized(list[k]); }
      hide FreeList, WellSized, ApartFromAll;
      if head == 0 || p > head {
        HeadInsert(head, nodes, list, r);
        assert list != [] ==> list[0].start == head;
        nodes := nodes[p := nodes[p].(next := head)];
        head := p;
        list := Insert(list, r);
        return;
      }
      var prev, i := FindPrevious(p, r);
      assert Linked(nodes, list, i);
      ghost var nodes' := nodes[p := Node(nodes[prev].next, r.size)][prev := Node(p, nodes[prev].size)];
      ChainInsert(head, nodes, list, i, r, nodes');
      hide Chain, Insert;
      nodes := nodes[p := nodes[p].(next := nodes[prev].next)];
      nodes := nodes[prev := nodes[prev].(next := p)];
      list := Insert(list, r);
    }

    /** The loop of `insert_node`: the last entry above the new one. */
    method FindPrevious(p: nat, ghost r: Region) returns (prev: nat, ghost i: nat)
      requires Valid() && p == r.start && list != [] && list[0].start >= p
      ensures i < |list| && prev == list[i].start
      ensures Insert(list, r) == list[..i + 1] + [r] + list[i + 1..]
    {
      prev, i := head, 0;
      assert Linked(nodes, list, 0);
      while nodes[prev].next != 0 && nodes[prev].next > p
        invariant i < |list| && prev == list[i].start && Linked(nodes, list, i)
        invariant Insert(list, r) == list[..i + 1] + InsertBelow(list[i + 1..], r)
        decreases |list| - i
      {
        BelowStep(list, i, r);
        prev, i := nodes[prev].next, i + 1;
        assert Linked(nodes, list, i);
      }
      if i + 1 < |list| { StartsDiffer(list, i + 1, i); }
      assert list[..i + 1] + [r] + list[i + 1..] == list[..i + 1] + ([r] + list[i + 1..]);
    }

    /** `add_region`, of memory that is not already free. */
    method AddRegion(start: nat, size: nat)
      requires Valid() && ApartFromAll(Region(start, size), list)
      modifies this
      ensures Valid() && list == EarlyHeap.AddRegion(old(list), start, size)
    {
      var end := start + size;
      if start < LOW_MEM_THRESHOLD && end <= LOW_MEM_THRESHOLD { return; }
      var low := if start < LOW_MEM_THRESHOLD then LOW_MEM_THRESHOLD else start;
      var aligned := AlignUp(low, HEADER_ALIGN);
      if aligned >= end || end - aligned < HEADER { return; }
      ghost var r := Region(aligned, end - aligned);
      assert Trim(start, size) == Some(r);
      TrimInside(start, size);
      forall k | 0 <= k < |list| ensures Apart(r, list[k]) { assert Apart(Region(start, size), list[k]); }
      HeaderElsewhere(r, Node(0, end - aligned));
      nodes := nodes[aligned := Node(0, end - aligned)];
      InsertNode(aligned, r);
    }

    /** `init_from_map`, on the map the kernel reads. */
    method InitFromMap(arenas: seq<Arenas.Arena>)
      requires Valid() && list == [] && Arenas.Tidy(arenas)
      modifies this
      ensures Valid() && list == Final(EMPTY, Donations(arenas)).free
    {
      ghost var s := EMPTY;
      for i := 0 to |arenas|
        invariant Valid() && list == s.free && Filling(s, arenas[i..])
        invariant Final(s, Donations(arenas[i..])) == Final(EMPTY, Donations(arenas))
      {
        ghost var rest := arenas[i..];
        assert rest[1..] == arenas[i + 1..] && rest[0] == arenas[i];
        FillOne(s, rest);
        hide Inv, Chain, FreeList, Final, Donations;
        if arenas[i].kind == Arenas.Usable { AddRegion(arenas[i].start, arenas[i].end - arenas[i].start); }
        s := Filled(s, rest);
      }
      assert arenas[|arenas|..] == [];
    }

    /** A header written in a region apart from the list disturbs none of the list's headers. */
    lemma HeaderElsewhere(r: Region, n: Node)
      requires Valid() && WellSized(r) && ApartFromAll(r, list)
      ensures Chain(head, nodes[r.start := n], list)
    {
      var nodes' := nodes[r.start := n];
      forall k | 0 <= k < |list| ensures Linked(nodes', list, k) {
        assert Linked(nodes, list, k) && Apart(r, list[k]) && WellSized(list[k]);
      }
    }

    /** `alloc`. */
    method Alloc(bytes: nat, layoutAlign: nat) returns (r: Option<nat>)
      requires Valid()
      modifies this
      ensures var found := EarlyHeap.Alloc(old(list), Rounded(bytes), Raised(layoutAlign));
              if found.None? then r == None && list == old(list)
              else r == Some(found.value.0) && list == found.value.1
      ensures Valid()
    {
      var size, align := Rounded(bytes), Raised(layoutAlign);
      var prev, curr := 0, head;
      ghost var i := 0;
      while curr != 0
        invariant i <= |list| && curr == StartOf(list, i) && prev == if i == 0 then 0 else list[i - 1].start
        invariant forall j | 0 <= j < i :: Place(list[j], size, align) == None
        decreases |list| - i
      {
        assert Linked(nodes, list, i);
        var regionEnd := curr + nodes[curr].size;
        if regionEnd >= size {
          var a := AlignDown(regionEnd - size, align);
          if a >= curr {
            TakenHere(list, size, align, i);
            TakeAt(i, prev, curr, a, size, align);
            return Some(a);
          }
        }
        i, prev, curr := i + 1, curr, nodes[curr].next;
      }
      EndOfList(list, i);
      var k := AllocIs(list, size, align);
      return None;
    }

    /** The region found gives up its upper part, or leaves the list. */
    method TakeAt(ghost i: nat, prev: nat, curr: nat, a: nat, ghost size: nat, ghost align: nat)
      requires Valid() && align > 0 && size > 0
      requires TakenFrom(list, size, align, i) && Place(list[i], size, align) == Some(a)
      requires curr == list[i].start && prev == if i == 0 then 0 else list[i - 1].start
      modifies this
      ensures Valid() && list == EarlyHeap.Alloc(old(list), size, align).value.1
    {
      ghost var after := EarlyHeap.Alloc(list, size, align).value.1;
      assert FreeList(after) by {
        PlaceIsHighest(list[i], size, align);
        TakeKeeps(list, size, align, i);
      }
      hide EarlyHeap.Alloc, Place, FreeList;
      assert Linked(nodes, list, i);
      var leftover := a - curr;
      if leftover < HEADER {
        assert after == list[..i] + list[i + 1..];
        Unlink(i, prev, curr);
      } else {
        ghost var nodes' := nodes[curr := nodes[curr].(size := leftover)];
        ChainShrink(head, nodes, list, i, leftover, nodes');
        hide Chain;
        nodes := nodes[curr := nodes[curr].(size := leftover)];
      }
      list := after;
    }

    method Unlink(ghost i: nat, prev: nat, curr: nat)
      requires Valid() && i < |list| && curr == list[i].start && prev == if i == 0 then 0 else list[i - 1].start
      modifies this`head, this`nodes
      ensures Chain(head, nodes, list[..i] + list[i + 1..])
    {
      assert Linked(nodes, list, i);
      var next := nodes[curr].next;
      if prev == 0 {
        ChainRemove(head, nodes, list, i, next, nodes);
        head := next;
      } else {
        assert Linked(nodes, list, i - 1);
        ghost var nodes' := nodes[prev := Node(next, list[i - 1].size)];
        ChainRemove(head, nodes, list, i, head, nodes');
        hide Chain;
        nodes := nodes[prev := nodes[prev].(next := next)];
      }
    }
  }
}
