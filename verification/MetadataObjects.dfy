/** The bring-up of page metadata as it runs: the range iterator, the layout loop, the lookup loop. */
module MetadataObjects {
  import opened Arithmetic
  import opened Prelude
  import opened Arenas
  import opened EarlyHeap
  import EarlyObjects
  import FrameFeed
  import opened FrameAllocator
  import opened Metadata

  datatype Stage = Heap | LowMem | Done

  lemma {:induction false} LowRangesAppend(a: seq<Arena>, b: seq<Arena>)
    ensures LowRanges(a + b) == LowRanges(a) + LowRanges(b)
    decreases |b|
  {
    if b == [] {
      assert a + b == a;
    } else {
      LowRangesAppend(a, b[..|b| - 1]);
      assert (a + b)[..|a + b| - 1] == a + b[..|b| - 1];
    }
  }

  lemma OneLow(a: Arena)
    ensures LowRanges([a]) ==
            if a.kind == Usable && a.start < Min(a.end, LOW_MEM_THRESHOLD)
            then [Range(a.start, Min(a.end, LOW_MEM_THRESHOLD))] else []
  {
    assert [a][..0] == [];
  }

  /** `BootUsableRanges`: what is left of the heap, then what lies below it. */
  class BootUsableRanges {
    const list: seq<Region>
    const arenas: seq<Arena>
    var heapAt: nat
    var mapAt: nat
    var stage: Stage

    ghost predicate Valid()
      reads this
    {
      && heapAt <= |list| && mapAt <= |arenas|
      && (stage != Heap ==> heapAt == |list|) && (stage == Done ==> mapAt == |arenas|)
    }

    /** What is still to come. */
    ghost function Left(): seq<Range>
      requires Valid()
      reads this
    {
      HeapRanges(list[heapAt..]) + LowRanges(arenas[mapAt..])
    }

    constructor (list: seq<Region>, arenas: seq<Arena>)
      ensures Valid() && Left() == UsableRanges(list, arenas)
      ensures this.list == list && this.arenas == arenas
    {
      this.list, this.arenas, heapAt, mapAt, stage := list, arenas, 0, 0, Heap;
    }

    method Next() returns (r: Option<Range>)
      requires Valid()
      modifies this
      ensures Valid()
      ensures r.Some? ==> old(Left()) == [r.value] + Left()
      ensures r.None? ==> old(Left()) == Left() == []
    {
      if stage == Heap {
        if heapAt < |list| {
          r := Some(Range(list[heapAt].start, End(list[heapAt])));
          NextHeap();
          heapAt := heapAt + 1;
          return;
        }
        stage := LowMem;
      }
      r := NextLowRange();
    }

    /** The second stage: usable arenas, as far as they lie below the threshold. */
    method NextLowRange() returns (r: Option<Range>)
      requires Valid() && stage != Heap
      modifies this`mapAt, this`stage
      ensures Valid() && stage != Heap
      ensures r.Some? ==> LowRanges(old(arenas[mapAt..])) == [r.value] + LowRanges(arenas[mapAt..])
      ensures r.None? ==> LowRanges(old(arenas[mapAt..])) == [] && mapAt == |arenas|
    {
      while mapAt < |arenas|
        invariant Valid() && stage == old(stage) && LowRanges(arenas[mapAt..]) == LowRanges(old(arenas[mapAt..]))
        decreases |arenas| - mapAt
      {
        var arena := arenas[mapAt];
        NextLow();
        mapAt := mapAt + 1;
        var lowEnd := Min(arena.end, LOW_MEM_THRESHOLD);
        if arena.kind == Usable && arena.start < lowEnd {
          return Some(Range(arena.start, lowEnd));
        }
      }
      stage := Done;
      return None;
    }

    lemma NextHeap()
      requires Valid() && heapAt < |list|
      ensures HeapRanges(list[heapAt..]) == [Range(list[heapAt].start, End(list[heapAt]))] + HeapRanges(list[heapAt + 1..])
    {
      assert list[heapAt..] == [list[heapAt]] + list[heapAt + 1..];
      HeapRangesAppend([list[heapAt]], list[heapAt + 1..]);
      OneRange(list[heapAt]);
    }

    lemma NextLow()
      requires Valid() && mapAt < |arenas|
      ensures LowRanges(arenas[mapAt..]) == LowRanges([arenas[mapAt]]) + LowRanges(arenas[mapAt + 1..])
      ensures LowRanges([arenas[mapAt]]) ==
              var a := arenas[mapAt];
              if a.kind == Usable && a.start < Min(a.end, LOW_MEM_THRESHOLD)
              then [Range(a.start, Min(a.end, LOW_MEM_THRESHOLD))] else []
    {
      assert arenas[mapAt..] == [arenas[mapAt]] + arenas[mapAt + 1..];
      LowRangesAppend([arenas[mapAt]], arenas[mapAt + 1..]);
      OneLow(arenas[mapAt]);
    }
  }

  /** `boot_usable_range_stats`. */
  method RangeStats(ranges: seq<Range>) returns (sections: nat, pages: nat)
    requires forall r | r in ranges :: r.start <= r.end
    ensures sections == |ranges| && pages == PagesIn(ranges)
  {
    sections, pages := 0, 0;
    for i := 0 to |ranges|
      invariant sections == i && pages == PagesIn(ranges[..i])
    {
      assert ranges[..i + 1][..i] == ranges[..i];
      sections := sections + 1;
      pages := pages + (ranges[i].end - ranges[i].start) / PAGE;
    }
    assert ranges[..|ranges|] == ranges;
  }

  /** Both counts only grow. */
  lemma {:induction false} PrefixNeedsLess(ranges: seq<Range>, i: nat)
    requires i <= |ranges|
    ensures |Sections(ranges[..i])| <= |Sections(ranges)| && Tracked(ranges[..i]) <= Tracked(ranges)
    decreases |ranges|
  {
    if i == |ranges| {
      assert ranges[..i] == ranges;
    } else {
      var n := |ranges| - 1;
      PrefixNeedsLess(ranges[..n], i);
      assert ranges[..n][..i] == ranges[..i];
    }
  }

  /** `from_storage` on storage for so many sections and cells: it fails exactly when they are too few. */
  method FromStorage(storage: array<Section>, cells: nat, ranges: seq<Range>) returns (n: Option<nat>)
    modifies storage
    ensures n.Some? <==> |Sections(ranges)| <= storage.Length && Tracked(ranges) <= cells
    ensures n.Some? ==> n.value == |Sections(ranges)| && storage[..n.value] == Sections(ranges)
  {
    var nextSection, nextMeta := 0, 0;
    assert ranges[..0] == [];
    for i := 0 to |ranges|
      invariant nextSection <= storage.Length && nextMeta <= cells
      invariant storage[..nextSection] == Sections(ranges[..i]) && nextMeta == Tracked(ranges[..i])
    {
      assert ranges[..i + 1][..i] == ranges[..i];
      PrefixNeedsLess(ranges, i + 1);
      WholePagesZero(ranges[i]);
      var start, end := AlignUp(ranges[i].start, PAGE), AlignDown(ranges[i].end, PAGE);
      hide AlignUp, AlignDown, RawPages;
      if end > start {
        var pages := (end - start) / PAGE;
        if nextSection >= storage.Length || nextMeta + pages > cells { return None; }
        storage[nextSection] := Section(start, end, nextMeta);
        nextSection, nextMeta := nextSection + 1, nextMeta + pages;
      }
    }
    assert ranges[..|ranges|] == ranges;
    return Some(nextSection);
  }

  /** `meta_for_phys`. */
  method MetaForPhys(sections: seq<Section>, phys: nat) returns (r: Option<nat>)
    ensures r == MetaFor(sections, phys)
  {
    for i := 0 to |sections|
      invariant MetaFor(sections[i..], phys) == MetaFor(sections, phys)
    {
      if InSection(sections[i], phys) {
        return Some(sections[i].metas + (phys - sections[i].start) / PAGE);
      }
      assert sections[i..][1..] == sections[i + 1..];
    }
    return None;
  }

  /** How the layout ends: with sections, or with one of its two failures. */
  datatype Layout = Ready(sections: seq<Section>) | NoStorage | NoMetadata

  /**
   The metadata part of `init_frame_allocator`: count, carve the two tables, lay out what is left. Once the tables
   have been carved the layout never fails.
   */
  method BuildMetadata(heap: EarlyObjects.EarlyAllocator, arenas: seq<Arena>, sectionBytes: nat, cellBytes: nat)
    returns (r: Layout, ghost bytes1: nat, ghost bytes2: nat)
    requires heap.Valid()
    modifies heap
    ensures heap.Valid() && r != NoMetadata
    ensures bytes1 == |UsableRanges(old(heap.list), arenas)| * sectionBytes
    ensures bytes2 == PagesIn(UsableRanges(old(heap.list), arenas)) * cellBytes
    ensures r.Ready? <==> HasRoom(old(heap.list), arenas, bytes1, bytes2)
    ensures r.Ready? ==> r.sections == Sections(UsableRanges(heap.list, arenas))
    ensures r.Ready? ==> Carved(old(heap.list), heap.list, bytes1, bytes2)
  {
    hide UsableRanges, Carved, CanCarve, EarlyObjects.Chain;
    ghost var list := heap.list;
    CountsWellFormed(list, arenas);
    var ranges := Collect(heap, arenas);
    var count, pages := RangeStats(ranges);
    bytes1, bytes2 := count * sectionBytes, pages * cellBytes;
    if count == 0 || pages == 0 {
      r := NoStorage;
      return;
    }
    var ok := AllocStorage(heap, count * sectionBytes, pages * cellBytes);
    if !ok {
      r := NoStorage;
      return;
    }
    CarvedSuffices(list, heap.list, arenas, bytes1, bytes2);
    var after := Collect(heap, arenas);
    var storage := new Section[count](_ => Section(0, 0, 0));
    var n := FromStorage(storage, pages, after);
    r := if n.None? then NoMetadata else Ready(storage[..n.value]);
  }

  /** Two blocks carved out, one after the other. */
  ghost predicate Carved(list: seq<Region>, after: seq<Region>, bytes1: nat, bytes2: nat) {
    var first := Alloc(list, Rounded(bytes1), Raised(8));
    && first.Some?
    && var second := Alloc(first.value.1, Rounded(bytes2), Raised(8));
      second.Some? && second.value.1 == after
  }

  predicate CanCarve(list: seq<Region>, bytes1: nat, bytes2: nat) {
    var first := Alloc(list, Rounded(bytes1), Raised(8));
    first.Some? && Alloc(first.value.1, Rounded(bytes2), Raised(8)).Some?
  }

  /** There is memory to describe, and room for the two tables that describe it. */
  predicate HasRoom(list: seq<Region>, arenas: seq<Arena>, bytes1: nat, bytes2: nat) {
    var ranges := UsableRanges(list, arenas);
    ranges != [] && PagesIn(ranges) > 0 && CanCarve(list, bytes1, bytes2)
  }

  /** `alloc_storage`; false when either table does not fit. */
  method AllocStorage(heap: EarlyObjects.EarlyAllocator, bytes1: nat, bytes2: nat) returns (ok: bool)
    requires heap.Valid()
    modifies heap
    ensures heap.Valid() && (ok <==> CanCarve(old(heap.list), bytes1, bytes2))
    ensures ok ==> Carved(old(heap.list), heap.list, bytes1, bytes2)
  {
    var first := heap.Alloc(bytes1, 8);
    if first.None? { return false; }
    var second := heap.Alloc(bytes2, 8);
    return second.Some?;
  }

  lemma CarvedSuffices(list: seq<Region>, after: seq<Region>, arenas: seq<Arena>, bytes1: nat, bytes2: nat)
    requires Carved(list, after, bytes1, bytes2)
    ensures |Sections(UsableRanges(after, arenas))| <= |UsableRanges(list, arenas)|
    ensures Tracked(UsableRanges(after, arenas)) <= PagesIn(UsableRanges(list, arenas))
  {
    var mid := Alloc(list, Rounded(bytes1), Raised(8)).value.1;
    SizingSuffices(list, mid, after, arenas, Rounded(bytes1), Raised(8), Rounded(bytes2), Raised(8));
  }

  lemma {:induction false} HeapCountsWellFormed(list: seq<Region>)
    ensures forall r | r in HeapRanges(list) :: r.start <= r.end
  {
    if list != [] { HeapCountsWellFormed(list[..|list| - 1]); }
  }

  lemma {:induction false} CountsWellFormed(list: seq<Region>, arenas: seq<Arena>)
    ensures forall r | r in UsableRanges(list, arenas) :: r.start <= r.end
    decreases |arenas|
  {
    HeapCountsWellFormed(list);
    if arenas != [] { CountsWellFormed(list, arenas[..|arenas| - 1]); }
  }

  /** The ranges read off the allocator's own list. */
  method Collect(heap: EarlyObjects.EarlyAllocator, arenas: seq<Arena>) returns (ranges: seq<Range>)
    requires heap.Valid()
    ensures ranges == UsableRanges(heap.list, arenas)
  {
    var regions := Regions(heap);
    var iter := new BootUsableRanges(regions, arenas);
    ranges := [];
    var next := iter.Next();
    while next.Some?
      invariant iter.Valid() && fresh(iter)
      invariant next.Some? ==> UsableRanges(heap.list, arenas) == ranges + [next.value] + iter.Left()
      invariant next.None? ==> UsableRanges(heap.list, arenas) == ranges
      decreases |iter.Left()|, next.Some?
    {
      ranges := ranges + [next.value];
      next := iter.Next();
    }
  }

  /** `iter_regions`. */
  method Regions(heap: EarlyObjects.EarlyAllocator) returns (regions: seq<Region>)
    requires heap.Valid()
    ensures regions == heap.list
  {
    regions := [];
    var current := heap.head;
    while current != 0
      invariant |regions| <= |heap.list| && regions == heap.list[..|regions|]
      invariant current == EarlyObjects.StartOf(heap.list, |regions|)
      decreases |heap.list| - |regions|
    {
      assert EarlyObjects.Linked(heap.nodes, heap.list, |regions|);
      regions := regions + [Region(current, heap.nodes[current].size)];
      current := heap.nodes[current].next;
    }
    EarlyObjects.EndOfList(heap.list, |regions|);
  }

  // ---- Feeding the same ranges

  lemma {:induction false} HeapEnds(list: seq<Region>, maxPhys: nat)
    requires forall r | r in list :: End(r) <= maxPhys
    ensures forall r | r in HeapRanges(list) :: r.end <= maxPhys
  {
    if list != [] { HeapEnds(list[..|list| - 1], maxPhys); }
  }

  lemma {:induction false} LowEnds(arenas: seq<Arena>, maxPhys: nat)
    requires forall a | a in arenas && a.kind == Usable :: a.end <= maxPhys
    ensures forall r | r in LowRanges(arenas) :: r.end <= maxPhys
  {
    if arenas != [] { LowEnds(arenas[..|arenas| - 1], maxPhys); }
  }

  /**
   With zones sized by the highest usable address, no usable range is unmanaged, and every frame it puts is one
   its zone was sized for.
   */
  lemma UsableIsManaged(zones: Zones, list: seq<Region>, arenas: seq<Arena>, maxPhys: nat, r: Range)
    requires forall q | q in list :: End(q) <= maxPhys
    requires forall a | a in arenas && a.kind == Usable :: a.end <= maxPhys
    requires FrameFeed.Normal in zones <==> maxPhys > FrameFeed.ZoneStart(FrameFeed.Normal)
    requires r in UsableRanges(list, arenas)
    ensures !Unmanaged(zones, r)
    ensures forall z :: EndIn(z, r.end) <= FrameFeed.FrameNumUntil(z, maxPhys)
  {
    HeapEnds(list, maxPhys);
    LowEnds(arenas, maxPhys);
    forall z ensures EndIn(z, r.end) <= FrameFeed.FrameNumUntil(z, maxPhys) { WithinCapacity(z, r, maxPhys); }
  }
}
