/**
 Memory bring-up end to end: the boot heap, the ranges read off it, the frames fed from them and their metadata, as
 `init_frame_allocator` of kernel/src/memory/heap.rs strings them together.
 */
module BringUp {
  import opened Prelude
  import opened Arenas
  import opened EarlyHeap
  import EarlyObjects
  import EarlyRuns
  import FrameFeed
  import opened FrameAllocator
  import opened Metadata
  import opened MetadataObjects

  predicate Disjoint(ranges: seq<Range>) {
    forall i, j | 0 <= i < j < |ranges| :: ranges[i].end <= ranges[j].start || ranges[j].end <= ranges[i].start
  }

  lemma {:induction false} HeapRangeAt(list: seq<Region>, i: nat)
    requires i < |list|
    ensures |HeapRanges(list)| == |list| && HeapRanges(list)[i] == Range(list[i].start, End(list[i]))
    decreases |list|
  {
    HeapRangesLength(list);
    var n := |list| - 1;
    HeapRangesLength(list[..n]);
    if i < n { HeapRangeAt(list[..n], i); }
  }

  /** The low ranges are below the heap, in order, and end by the last arena they come from. */
  lemma {:induction false} LowRangesOrdered(arenas: seq<Arena>)
    requires Tidy(arenas)
    ensures forall r | r in LowRanges(arenas) :: r.end <= LOW_MEM_THRESHOLD && r.end <= arenas[|arenas| - 1].end
    ensures forall i, j | 0 <= i < j < |LowRanges(arenas)| :: LowRanges(arenas)[i].end <= LowRanges(arenas)[j].start
    decreases |arenas|
  {
    if arenas != [] {
      var n := |arenas| - 1;
      LowRangesOrdered(arenas[..n]);
      assert n > 0 ==> arenas[n - 1].end <= arenas[n].start;
      var before := LowRanges(arenas[..n]);
      assert forall i | 0 <= i < |before| :: before[i] in before;
    }
  }

  /** No two usable ranges overlap. */
  lemma UsableDisjoint(list: seq<Region>, arenas: seq<Arena>)
    requires EarlyRuns.FreeList(list) && Tidy(arenas)
    ensures Disjoint(UsableRanges(list, arenas))
  {
    var heap, low := HeapRanges(list), LowRanges(arenas);
    var all := heap + low;
    HeapRangesLength(list);
    LowRangesOrdered(arenas);
    forall i | 0 <= i < |list| ensures heap[i] == Range(list[i].start, End(list[i])) { HeapRangeAt(list, i); }
    hide HeapRanges, LowRanges;
    forall i, j | 0 <= i < j < |all| ensures all[i].end <= all[j].start || all[j].end <= all[i].start {
      if j < |heap| {
        assert End(list[j]) <= list[i].start;
      } else if i < |heap| {
        assert EarlyRuns.WellSized(list[i]) && low[j - |heap|] in low;
      }
    }
  }

  /** A usable range is a free region or lies below the heap. */
  lemma UsableIsFree(list: seq<Region>, arenas: seq<Arena>, r: Range) returns (i: nat)
    requires Tidy(arenas) && r in UsableRanges(list, arenas)
    ensures i < |list| ==> r == Range(list[i].start, End(list[i]))
    ensures i >= |list| ==> r.end <= LOW_MEM_THRESHOLD
  {
    var heap := HeapRanges(list);
    HeapRangesLength(list);
    LowRangesOrdered(arenas);
    if r in heap {
      i :| 0 <= i < |heap| && heap[i] == r;
      HeapRangeAt(list, i);
    } else {
      i := |list|;
    }
  }

  predicate PageApart(page: nat, b: EarlyRuns.Block) {
    page + PAGE <= b.at.start || End(b.at) <= page
  }

  /** The frame is put at most once, when its whole page is usable; the page then has metadata and is no one's. */
  ghost predicate Safe(s: EarlyRuns.State, ranges: seq<Range>, z: FrameFeed.Zone, f: nat, n: nat) {
    var page := FrameFeed.ZoneStart(z) + f * PAGE;
    && n <= 1
    && (n == 1 <==> exists i | 0 <= i < |ranges| :: FrameFeed.Whole(z, ranges[i].start, ranges[i].end, f))
    && (n == 1 ==> MetaFor(Sections(ranges), page).Some?)
    && (n == 1 ==> forall k | 0 <= k < |s.live| :: PageApart(page, s.live[k]))
  }

  lemma CountIsSafe(s: EarlyRuns.State, arenas: seq<Arena>, z: FrameFeed.Zone, f: nat)
    requires EarlyRuns.Inv(s) && Tidy(arenas)
    ensures Safe(s, UsableRanges(s.free, arenas), z, f, RangeCount(UsableRanges(s.free, arenas), z, f))
  {
    var ranges := UsableRanges(s.free, arenas);
    UsableDisjoint(s.free, arenas);
    DisjointPutOnce(ranges, z, f);
    if RangeCount(ranges, z, f) == 1 {
      FedFramesTracked(ranges, z, f);
      var r := FedBy(ranges, z, f);
      PageAvoidsLive(s, arenas, r, FrameFeed.ZoneStart(z) + f * PAGE);
    }
  }

  // ---- When feeding completes

  /** An address strictly inside the first page of a zone. */
  predicate CutsZone(zones: Zones, end: nat) {
    exists z | z in zones :: FrameFeed.ZoneStart(z) < end < FrameFeed.ZoneStart(z) + PAGE
  }

  /** No free region and no low range ends there. */
  predicate NoCut(zones: Zones, list: seq<Region>, arenas: seq<Arena>) {
    && (forall r | r in list :: !CutsZone(zones, End(r)))
    && (forall r | r in LowRanges(arenas) :: !CutsZone(zones, r.end))
  }

  /** The zones were made for memory that ends at `maxPhys`. */
  predicate Sized(zones: Zones, list: seq<Region>, arenas: seq<Arena>, maxPhys: nat) {
    && (forall r | r in list :: End(r) <= maxPhys)
    && (forall a | a in arenas && a.kind == Usable :: a.end <= maxPhys)
    && (FrameFeed.Normal in zones <==> maxPhys > FrameFeed.ZoneStart(FrameFeed.Normal))
  }

  lemma {:induction false} LowRangesNonEmpty(arenas: seq<Arena>)
    ensures forall r | r in LowRanges(arenas) :: r.start < r.end
    decreases |arenas|
  {
    if arenas != [] { LowRangesNonEmpty(arenas[..|arenas| - 1]); }
  }

  /** What becomes of one usable range. */
  lemma UsableOutcome(s: EarlyRuns.State, arenas: seq<Arena>, zones: Zones, maxPhys: nat, r: Range)
    requires EarlyRuns.Inv(s) && Tidy(arenas) && Sized(zones, s.free, arenas, maxPhys)
    requires r in UsableRanges(s.free, arenas)
    ensures !Unmanaged(zones, r) && r.start < r.end
    ensures RangeOutcome(zones, r) == Fed <==> !CutsZone(zones, r.end)
  {
    UsableIsManaged(zones, s.free, arenas, maxPhys, r);
    LowRangesNonEmpty(arenas);
    hide UsableRanges, LowRanges;
    if r !in LowRanges(arenas) {
      var i := UsableIsRegion(s.free, arenas, r);
      assert EarlyRuns.WellSized(s.free[i]);
    }
  }

  lemma UsableIsRegion(list: seq<Region>, arenas: seq<Arena>, r: Range) returns (i: nat)
    requires r in UsableRanges(list, arenas) && r !in LowRanges(arenas)
    ensures i < |list| && r == Range(list[i].start, End(list[i]))
  {
    var heap := HeapRanges(list);
    HeapRangesLength(list);
    i :| 0 <= i < |heap| && heap[i] == r;
    HeapRangeAt(list, i);
  }

  lemma RegionIsUsable(list: seq<Region>, arenas: seq<Arena>, i: nat)
    requires i < |list|
    ensures Range(list[i].start, End(list[i])) in UsableRanges(list, arenas)
  {
    HeapRangeAt(list, i);
    assert HeapRanges(list)[i] in HeapRanges(list);
  }

  /** Feeding at bring-up completes exactly when nothing usable ends inside a zone's first page; else it panics. */
  lemma FeedCompletes(s: EarlyRuns.State, arenas: seq<Arena>, zones: Zones, maxPhys: nat)
    requires EarlyRuns.Inv(s) && Tidy(arenas) && Sized(zones, s.free, arenas, maxPhys)
    ensures AllOutcome(zones, UsableRanges(s.free, arenas)) == if NoCut(zones, s.free, arenas) then Fed else Panicked
  {
    var ranges := UsableRanges(s.free, arenas);
    AllFedIff(zones, ranges);
    forall r | r in ranges
      ensures !Unmanaged(zones, r) && (RangeOutcome(zones, r) == Fed <==> !CutsZone(zones, r.end))
    {
      UsableOutcome(s, arenas, zones, maxPhys, r);
    }
    CutsAgree(zones, s.free, arenas);
  }

  lemma CutsAgree(zones: Zones, list: seq<Region>, arenas: seq<Arena>)
    ensures NoCut(zones, list, arenas) <==> forall r | r in UsableRanges(list, arenas) :: !CutsZone(zones, r.end)
  {
    hide CutsZone;
    var ranges := UsableRanges(list, arenas);
    if forall r | r in ranges :: !CutsZone(zones, r.end) {
      forall q | q in list ensures !CutsZone(zones, End(q)) {
        var i :| 0 <= i < |list| && list[i] == q;
        RegionIsUsable(list, arenas, i);
      }
    }
    if NoCut(zones, list, arenas) {
      forall r | r in ranges ensures !CutsZone(zones, r.end) {
        if r !in LowRanges(arenas) {
          var i := UsableIsRegion(list, arenas, r);
          assert list[i] in list;
        }
      }
    }
  }

  /**
   After any run of the boot heap, feeding the usable ranges to new zones completes exactly when nothing usable ends
   inside the first page of a zone. Then each frame has been put at most once, exactly when some usable range holds its
   whole page; such a page has metadata and overlaps no block the boot heap handed out.
   */
  lemma FramesAreSafe(steps: seq<EarlyRuns.Step>, arenas: seq<Arena>, zones: Zones, maxPhys: nat, maxOrder: nat,
                      z: FrameFeed.Zone, f: nat)
    requires EarlyRuns.Run(EarlyRuns.EMPTY, steps) && Tidy(arenas) && z in zones && zones[z].puts == []
    requires Sized(zones, EarlyRuns.Final(EarlyRuns.EMPTY, steps).free, arenas, maxPhys)
    ensures var s := EarlyRuns.Final(EarlyRuns.EMPTY, steps);
            var ranges := UsableRanges(s.free, arenas);
            var fed := FedAll(zones, ranges, maxOrder);
            && (AllOutcome(zones, ranges) == Fed <==> NoCut(zones, s.free, arenas))
            && z in fed
            && (AllOutcome(zones, ranges) == Fed ==> Safe(s, ranges, z, f, FrameFeed.PutCount(fed[z].puts, f)))
  {
    var s := EarlyRuns.Final(EarlyRuns.EMPTY, steps);
    EarlyRuns.RunKeepsInv(EarlyRuns.EMPTY, steps);
    FeedCompletes(s, arenas, zones, maxPhys);
    FedIsSafe(s, arenas, zones, maxOrder, z, f);
  }

  lemma FedIsSafe(s: EarlyRuns.State, arenas: seq<Arena>, zones: Zones, maxOrder: nat, z: FrameFeed.Zone, f: nat)
    requires EarlyRuns.Inv(s) && Tidy(arenas) && z in zones && zones[z].puts == []
    ensures var fed := FedAll(zones, UsableRanges(s.free, arenas), maxOrder);
            z in fed && Safe(s, UsableRanges(s.free, arenas), z, f, FrameFeed.PutCount(fed[z].puts, f))
  {
    CountIsSafe(s, arenas, z, f);
    PutOncePerRange(zones, UsableRanges(s.free, arenas), maxOrder, z, f);
  }

  lemma PageAvoidsLive(s: EarlyRuns.State, arenas: seq<Arena>, r: Range, page: nat)
    requires EarlyRuns.Inv(s) && Tidy(arenas) && r in UsableRanges(s.free, arenas)
    requires r.start <= page && page + PAGE <= r.end
    ensures forall k | 0 <= k < |s.live| :: PageApart(page, s.live[k])
  {
    var i := UsableIsFree(s.free, arenas, r);
    forall k | 0 <= k < |s.live| ensures PageApart(page, s.live[k]) {
      assert EarlyRuns.BlockInv(s, s.live[k]);
      if i < |s.free| { assert EarlyRuns.Apart(s.live[k].at, s.free[i]); }
    }
  }

  // ---- As it runs

  /** The boot heap after the two metadata tables have been carved out of it. */
  function AfterTables(s: EarlyRuns.State, bytes1: nat, bytes2: nat): EarlyRuns.State {
    EarlyRuns.Apply(EarlyRuns.Apply(s, EarlyRuns.Take(bytes1, 8)), EarlyRuns.Take(bytes2, 8))
  }

  lemma TablesAreLive(s: EarlyRuns.State, after: seq<Region>, bytes1: nat, bytes2: nat)
    requires EarlyRuns.Inv(s) && Carved(s.free, after, bytes1, bytes2)
    ensures var r := AfterTables(s, bytes1, bytes2);
            && EarlyRuns.Inv(r) && r.free == after && r.donated == s.donated
            && |r.live| == |s.live| + 2 && s.live <= r.live
            && r.live[|s.live|].at.size == Rounded(bytes1) && r.live[|s.live| + 1].at.size == Rounded(bytes2)
  {
    assert EarlyRuns.IsPowerOfTwo(8) by { assert 8 == Arithmetic.Pow2(3); }
    EarlyRuns.TakeInv(s, bytes1, 8);
    EarlyRuns.TakeInv(EarlyRuns.Apply(s, EarlyRuns.Take(bytes1, 8)), bytes2, 8);
    hide Alloc, EarlyRuns.Inv;
  }

  // ---- The tables of the frame allocator

  /** A block asked for: its size and its alignment. */
  datatype Request = Request(bytes: nat, align: nat)

  ghost predicate Proper(requests: seq<Request>) {
    forall q | q in requests :: EarlyRuns.IsPowerOfTwo(q.align)
  }

  function Takes(requests: seq<Request>): seq<EarlyRuns.Step> {
    if requests == [] then [] else [EarlyRuns.Take(requests[0].bytes, requests[0].align)] + Takes(requests[1..])
  }

  /** The free list after all of them, or None if one does not fit. */
  function TakeAll(list: seq<Region>, requests: seq<Request>): Option<seq<Region>>
    decreases |requests|
  {
    if requests == [] then Some(list)
    else
      match Alloc(list, Rounded(requests[0].bytes), Raised(requests[0].align))
      case None => None
      case Some((_, rest)) => TakeAll(rest, requests[1..])
  }

  /** Requests that all fit are a run of the boot heap, and each adds a live block. */
  lemma {:induction false} AllTaken(s: EarlyRuns.State, requests: seq<Request>)
    requires EarlyRuns.Inv(s) && Proper(requests) && TakeAll(s.free, requests).Some?
    ensures EarlyRuns.Run(s, Takes(requests))
    ensures var r := EarlyRuns.Final(s, Takes(requests));
            && EarlyRuns.Inv(r) && Some(r.free) == TakeAll(s.free, requests) && r.donated == s.donated
            && |r.live| == |s.live| + |requests| && s.live <= r.live
    decreases |requests|
  {
    if requests != [] {
      var q := requests[0];
      var step, rest := EarlyRuns.Take(q.bytes, q.align), Takes(requests[1..]);
      assert q in requests;
      EarlyRuns.TakeInv(s, q.bytes, q.align);
      assert Takes(requests)[1..] == rest && Takes(requests)[0] == step;
      hide Alloc, EarlyRuns.Inv;
      AllTaken(EarlyRuns.Apply(s, step), requests[1..]);
    }
  }

  /** The metadata of each zone, allocated one block after the other; false when one does not fit. */
  method AllocTables(heap: EarlyObjects.EarlyAllocator, requests: seq<Request>) returns (ok: bool)
    requires heap.Valid()
    modifies heap
    ensures heap.Valid() && (ok <==> TakeAll(old(heap.list), requests).Some?)
    ensures ok ==> TakeAll(old(heap.list), requests) == Some(heap.list)
  {
    for i := 0 to |requests|
      invariant heap.Valid() && TakeAll(heap.list, requests[i..]) == TakeAll(old(heap.list), requests)
    {
      assert requests[i..][1..] == requests[i + 1..];
      hide EarlyObjects.Chain, Alloc;
      var p := heap.Alloc(requests[i].bytes, requests[i].align);
      if p.None? { return false; }
    }
    return true;
  }

  // ---- The whole of it

  /** The boot heap after the tables of the frame allocator and the metadata. */
  lemma SoundAfter(s: EarlyRuns.State, requests: seq<Request>, tabled: seq<Region>, after: seq<Region>,
                   bytes1: nat, bytes2: nat)
    returns (r: EarlyRuns.State)
    requires EarlyRuns.Inv(s) && Proper(requests) && TakeAll(s.free, requests) == Some(tabled)
    requires Carved(tabled, after, bytes1, bytes2)
    ensures EarlyRuns.Inv(r) && r.free == after && r.donated == s.donated
    ensures |r.live| == |s.live| + |requests| + 2 && s.live <= r.live
  {
    hide EarlyRuns.Inv, EarlyRuns.Run, TakeAll, Carved, AfterTables;
    AllTaken(s, requests);
    var t := EarlyRuns.Final(s, Takes(requests));
    hide EarlyRuns.Final, Takes;
    TablesAreLive(t, after, bytes1, bytes2);
    r := AfterTables(t, bytes1, bytes2);
  }

  lemma FreeIsUnder(s: EarlyRuns.State, arenas: seq<Arena>, maxPhys: nat)
    requires EarlyRuns.Inv(s) && EarlyRuns.FromMap(s.donated, arenas)
    requires forall a | a in arenas && a.kind == Usable :: a.end <= maxPhys
    ensures forall r | r in s.free :: End(r) <= maxPhys
  {
    forall r | r in s.free ensures End(r) <= maxPhys {
      var i :| 0 <= i < |s.free| && s.free[i] == r;
      assert EarlyRuns.Donated(s.free[i], s.donated);
      var k :| 0 <= k < |s.donated| && EarlyRuns.Within(r, s.donated[k]);
      assert s.donated[k] in s.donated;
    }
  }

  /** The highest end of a usable arena, or 0. */
  method MaxUsable(arenas: seq<Arena>) returns (max: nat)
    ensures forall a | a in arenas && a.kind == Usable :: a.end <= max
    ensures max == 0 || exists a | a in arenas :: a.kind == Usable && a.end == max
  {
    max := 0;
    for i := 0 to |arenas|
      invariant forall j | 0 <= j < i && arenas[j].kind == Usable :: arenas[j].end <= max
      invariant max == 0 || exists a | a in arenas :: a.kind == Usable && a.end == max
    {
      if arenas[i].kind == Usable && arenas[i].end > max { max := arenas[i].end; }
    }
  }

  /** The metadata tables: how many bytes each, for what the boot heap now holds. */
  function SectionBytes(list: seq<Region>, arenas: seq<Arena>, each: nat): nat {
    |UsableRanges(list, arenas)| * each
  }

  function CellBytes(list: seq<Region>, arenas: seq<Arena>, each: nat): nat {
    PagesIn(UsableRanges(list, arenas)) * each
  }

  /** What bring-up promises once the frame allocator has its tables and the metadata has been carved. */
  ghost predicate BroughtUp(s: EarlyRuns.State, r: EarlyRuns.State, arenas: seq<Arena>, zones: Zones, more: nat,
                            outcome: Outcome) {
    && EarlyRuns.Inv(r) && s.live <= r.live && |r.live| == |s.live| + more + 2
    && outcome == (if NoCut(zones, r.free, arenas) then Fed else Panicked)
    && (outcome == Fed ==> forall z, f: nat | z in zones ::
          Safe(r, UsableRanges(r.free, arenas), z, f, FrameFeed.PutCount(zones[z].puts, f)))
  }

  /**
   `init_frame_allocator`: zones for the highest usable address, with `tables` for the blocks the frame allocator asks
   for; metadata carved from the boot heap; then the frames. It gets as far as feeding exactly when the tables and then
   the metadata fit. It then panics exactly when a free region or a low range ends inside the first page of a zone.
   Otherwise every frame of every zone has been put at most once, exactly when a usable range holds its whole page, and
   then has metadata and overlaps nothing live, all those tables included.
   */
  method InitFrameAllocator(heap: EarlyObjects.EarlyAllocator, arenas: seq<Arena>, maxOrder: nat, tables: seq<Request>,
                            sectionBytes: nat, cellBytes: nat, ghost s: EarlyRuns.State)
    returns (started: bool, layout: Layout, frames: Allocator, outcome: Outcome, ghost r: EarlyRuns.State)
    requires heap.Valid() && EarlyRuns.Inv(s) && s.free == heap.list && EarlyRuns.FromMap(s.donated, arenas)
    requires Tidy(arenas) && Proper(tables) && forall a | a in arenas :: a.end <= FrameFeed.USIZE_MAX
    modifies heap
    ensures heap.Valid() && layout != NoMetadata && fresh(frames)
    ensures started <==> TakeAll(old(heap.list), tables).Some?
    ensures started ==>
              var list := TakeAll(old(heap.list), tables).value;
              layout.Ready? <==>
                HasRoom(list, arenas, SectionBytes(list, arenas, sectionBytes), CellBytes(list, arenas, cellBytes))
    ensures started && layout.Ready? ==>
              && r.free == heap.list && layout.sections == Sections(UsableRanges(heap.list, arenas))
              && BroughtUp(s, r, arenas, frames.zones, |tables|, outcome)
  {
    hide Safe, Carved, HasRoom, AfterTables, UsableRanges, TakeAll, EarlyObjects.Chain;
    hide EarlyRuns.FromMap, EarlyRuns.Inv, EarlyRuns.Final, Takes, Sized, NoCut, Sections, PagesIn;
    var maxPhys := MaxUsable(arenas);
    started := AllocTables(heap, tables);
    frames := new Allocator(maxOrder, maxPhys);
    layout, outcome, r := NoStorage, Panicked, s;
    if !started { return; }
    ghost var tabled, bytes1, bytes2 := heap.list, 0, 0;
    layout, bytes1, bytes2 := BuildMetadata(heap, arenas, sectionBytes, cellBytes);
    if layout.Ready? {
      r := SoundAfter(s, tables, tabled, heap.list, bytes1, bytes2);
      ghost var zones := frames.zones;
      ZonesAreSized(r, arenas, zones, maxPhys);
      FeedCompletes(r, arenas, zones, maxPhys);
      AfterFeed(r, arenas, zones, maxOrder);
      RangesInWord(r, arenas, zones, maxPhys);
      var ranges := Collect(heap, arenas);
      outcome := frames.Feed(ranges);
      NoCutByKeys(zones, frames.zones, heap.list, arenas);
    }
  }

  /**
   `init_boot_heap` and then `init_frame_allocator`, straight from the map the kernel reads; `booted` is false when the
   map leaves the boot heap empty.
   */
  method InitMemory(arenas: seq<Arena>, maxOrder: nat, tables: seq<Request>, sectionBytes: nat, cellBytes: nat)
    returns (booted: bool, started: bool, layout: Layout, frames: Allocator, outcome: Outcome, ghost r: EarlyRuns.State)
    requires Tidy(arenas) && Proper(tables) && forall a | a in arenas :: a.end <= FrameFeed.USIZE_MAX
    ensures booted <==> EarlyRuns.Final(EarlyRuns.EMPTY, EarlyRuns.Donations(arenas)).free != []
    ensures var s := EarlyRuns.Final(EarlyRuns.EMPTY, EarlyRuns.Donations(arenas));
            && (booted ==> (started <==> TakeAll(s.free, tables).Some?))
            && (booted && started ==>
                  var list := TakeAll(s.free, tables).value;
                  layout.Ready? <==>
                    HasRoom(list, arenas, SectionBytes(list, arenas, sectionBytes), CellBytes(list, arenas, cellBytes)))
            && (booted && started && layout.Ready? ==> BroughtUp(s, r, arenas, frames.zones, |tables|, outcome))
  {
    hide EarlyRuns.Inv, EarlyRuns.Final, EarlyRuns.Donations, EarlyRuns.Run, EarlyRuns.FromMap, BroughtUp, TakeAll;
    hide UsableRanges, HasRoom, Sections;
    ghost var s := EarlyRuns.Final(EarlyRuns.EMPTY, EarlyRuns.Donations(arenas));
    assert EarlyRuns.Inv(s) && EarlyRuns.FromMap(s.donated, arenas) by { Boot(arenas); }
    var heap := new EarlyObjects.EarlyAllocator();
    heap.InitFromMap(arenas);
    booted := heap.head != 0;
    Empty(heap);
    if !booted {
      frames := new Allocator(maxOrder, 0);
      started, layout, outcome, r := false, NoStorage, Panicked, s;
      return;
    }
    started, layout, frames, outcome, r := InitFrameAllocator(heap, arenas, maxOrder, tables, sectionBytes, cellBytes, s);
  }

  lemma Boot(arenas: seq<Arena>)
    requires Tidy(arenas)
    ensures var s := EarlyRuns.Final(EarlyRuns.EMPTY, EarlyRuns.Donations(arenas));
            EarlyRuns.Inv(s) && s.live == [] && EarlyRuns.FromMap(s.donated, arenas)
  {
    EarlyRuns.DonationsRun(EarlyRuns.EMPTY, arenas, arenas);
  }

  /** `is_empty`. */
  lemma Empty(heap: EarlyObjects.EarlyAllocator)
    requires heap.Valid()
    ensures heap.head == 0 <==> heap.list == []
  {
    if heap.list != [] { assert EarlyRuns.WellSized(heap.list[0]); }
  }

  lemma ZonesAreSized(s: EarlyRuns.State, arenas: seq<Arena>, zones: Zones, maxPhys: nat)
    requires EarlyRuns.Inv(s) && EarlyRuns.FromMap(s.donated, arenas)
    requires forall a | a in arenas && a.kind == Usable :: a.end <= maxPhys
    requires FrameFeed.Normal in zones <==> maxPhys > FrameFeed.ZoneStart(FrameFeed.Normal)
    ensures Sized(zones, s.free, arenas, maxPhys)
  {
    FreeIsUnder(s, arenas, maxPhys);
  }

  lemma RangesInWord(s: EarlyRuns.State, arenas: seq<Arena>, zones: Zones, maxPhys: nat)
    requires Sized(zones, s.free, arenas, maxPhys) && maxPhys <= FrameFeed.USIZE_MAX
    ensures forall r | r in UsableRanges(s.free, arenas) :: r.end <= FrameFeed.USIZE_MAX
  {
    HeapEnds(s.free, maxPhys);
    LowEnds(arenas, maxPhys);
  }

  lemma AfterFeed(s: EarlyRuns.State, arenas: seq<Arena>, zones: Zones, maxOrder: nat)
    requires EarlyRuns.Inv(s) && Tidy(arenas) && forall z | z in zones :: zones[z].puts == []
    ensures var ranges := UsableRanges(s.free, arenas);
            var fed := FedAll(zones, ranges, maxOrder);
            && fed.Keys == zones.Keys
            && forall z, f: nat | z in fed :: Safe(s, ranges, z, f, FrameFeed.PutCount(fed[z].puts, f))
  {
    var ranges := UsableRanges(s.free, arenas);
    var fed := FedAll(zones, ranges, maxOrder);
    FedKeys(zones, ranges, maxOrder);
    hide Safe, EarlyRuns.Inv, UsableRanges;
    forall z, f: nat | z in fed ensures Safe(s, ranges, z, f, FrameFeed.PutCount(fed[z].puts, f)) {
      FedIsSafe(s, arenas, zones, maxOrder, z, f);
    }
  }

  lemma {:induction false} FedKeys(zones: Zones, ranges: seq<Range>, maxOrder: nat)
    ensures FedAll(zones, ranges, maxOrder).Keys == zones.Keys
    decreases |ranges|
  {
    if ranges != [] { FedKeys(zones, ranges[..|ranges| - 1], maxOrder); }
  }

  lemma NoCutByKeys(a: Zones, b: Zones, list: seq<Region>, arenas: seq<Arena>)
    requires a.Keys == b.Keys
    ensures NoCut(a, list, arenas) <==> NoCut(b, list, arenas)
  {
    forall end ensures CutsZone(a, end) <==> CutsZone(b, end) { }
  }

  // ---- A machine it panics on

  const CUT_ARENAS: seq<Arena> := [Arena(0x2_0000, 0x3_0000, Usable), Arena(0xF_0000, 0x10_2000, Usable)]

  const CUT_TABLES: seq<Request> := [Request(0x1800, 64)]

  const LOWER: Region := Region(0x2_0000, 0x1_0000)

  /** Free at boot, after the frame allocator has its tables, and after the metadata. */
  const CUT_BOOT: seq<Region> := [Region(0xF_0000, 0x1_2000), LOWER]
  const CUT_TABLED: seq<Region> := [Region(0xF_0000, 0x1_0800), LOWER]
  const CUT_FREE: seq<Region> := [Region(0xF_0000, 0x1_05C0), LOWER]

  const CUT_HALF: EarlyRuns.State := EarlyRuns.State([LOWER], [], [LOWER])

  lemma CutDonates()
    ensures Tidy(CUT_ARENAS) && EarlyRuns.Filled(EarlyRuns.EMPTY, CUT_ARENAS) == CUT_HALF
    ensures Tidy(CUT_ARENAS[1..]) && EarlyRuns.Filled(CUT_HALF, CUT_ARENAS[1..]).free == CUT_BOOT
  {
    assert Trim(0x2_0000, 0x1_0000) == Some(LOWER);
    assert Trim(0xF_0000, 0x1_2000) == Some(Region(0xF_0000, 0x1_2000));
    hide Trim;
    assert AddRegion([], 0x2_0000, 0x1_0000) == [LOWER];
    assert AddRegion([LOWER], 0xF_0000, 0x1_2000) == CUT_BOOT;
  }

  lemma CutBoots()
    ensures Tidy(CUT_ARENAS) && EarlyRuns.Final(EarlyRuns.EMPTY, EarlyRuns.Donations(CUT_ARENAS)).free == CUT_BOOT
  {
    CutDonates();
    EarlyRuns.FillOne(EarlyRuns.EMPTY, CUT_ARENAS);
    hide EarlyRuns.Filled;
    EarlyRuns.FillOne(CUT_HALF, CUT_ARENAS[1..]);
    assert CUT_ARENAS[1..][1..] == [];
  }

  lemma TakeFromFirst(start: nat, size: nat, bytes: nat, align: nat)
    requires align > 0 && bytes > 0 && size >= bytes + HEADER && (start + size - bytes) % align == 0
    ensures Alloc([Region(start, size), LOWER], bytes, align) ==
            Some((start + size - bytes, [Region(start, size - bytes), LOWER]))
  {
    var a, first := start + size - bytes, Region(start, size);
    assert Arithmetic.AlignDown(a, align) == a by {
      Arithmetic.MultiplesApart(align, a, Arithmetic.AlignDown(a, align));
    }
    hide Arithmetic.AlignDown;
    assert Place(first, bytes, align) == Some(a);
    assert [first, LOWER][1..] == [LOWER] && Leftover(first, a) == [Region(start, size - bytes)];
    assert Leftover(first, a) + [LOWER] == [Region(start, size - bytes), LOWER];
  }

  lemma CutIsTabled()
    ensures TakeAll(CUT_BOOT, CUT_TABLES) == Some(CUT_TABLED)
    ensures Carved(CUT_TABLED, CUT_FREE, 64, 512)
  {
    TakeFromFirst(0xF_0000, 0x1_2000, 0x1800, 64);
    TakeFromFirst(0xF_0000, 0x1_0800, 64, 8);
    TakeFromFirst(0xF_0000, 0x1_07C0, 512, 8);
    hide Alloc;
    assert CUT_TABLES[1..] == [];
  }

  lemma TwoRanges(a: Range, b: Range)
    ensures PagesIn([a, b]) == RawPages(a) + RawPages(b)
  {
    assert [a, b][..1] == [a] && [a][..0] == [];
    assert PagesIn([a]) == RawPages(a);
  }

  lemma CutRanges()
    ensures UsableRanges(CUT_TABLED, CUT_ARENAS) == [Range(0xF_0000, 0x10_0800), Range(0x2_0000, 0x3_0000)]
  {
    HeapRangesAppend([CUT_TABLED[0]], [LOWER]);
    OneRange(CUT_TABLED[0]);
    OneRange(LOWER);
    assert CUT_TABLED == [CUT_TABLED[0]] + [LOWER];
    LowRangesAppend([CUT_ARENAS[0]], [CUT_ARENAS[1]]);
    OneLow(CUT_ARENAS[0]);
    OneLow(CUT_ARENAS[1]);
    assert CUT_ARENAS == [CUT_ARENAS[0]] + [CUT_ARENAS[1]];
    hide HeapRanges, LowRanges;
  }

  /** Two ranges and thirty-two pages to describe, at 32 and 16 bytes each. */
  lemma CutSizes()
    ensures SectionBytes(CUT_TABLED, CUT_ARENAS, 32) == 64 && CellBytes(CUT_TABLED, CUT_ARENAS, 16) == 512
  {
    CutRanges();
    hide UsableRanges;
    TwoRanges(Range(0xF_0000, 0x10_0800), Range(0x2_0000, 0x3_0000));
    hide PagesIn;
  }

  lemma CutFacts(zones: Zones)
    requires zones.Keys == {FrameFeed.Low, FrameFeed.Dma32}
    ensures Sized(zones, CUT_FREE, CUT_ARENAS, 0x10_2000) && !NoCut(zones, CUT_FREE, CUT_ARENAS)
  {
    assert FrameFeed.Dma32 in zones && CUT_FREE[0] in CUT_FREE;
    assert FrameFeed.ZoneStart(FrameFeed.Dma32) < End(CUT_FREE[0]) < FrameFeed.ZoneStart(FrameFeed.Dma32) + PAGE;
  }

  lemma CutPanics(s: EarlyRuns.State, requests: seq<Request>, tabled: seq<Region>, after: seq<Region>,
                  bytes1: nat, bytes2: nat, arenas: seq<Arena>, zones: Zones, maxPhys: nat)
    requires EarlyRuns.Inv(s) && Proper(requests) && TakeAll(s.free, requests) == Some(tabled)
    requires Carved(tabled, after, bytes1, bytes2)
    requires Tidy(arenas) && Sized(zones, after, arenas, maxPhys) && !NoCut(zones, after, arenas)
    ensures AllOutcome(zones, UsableRanges(after, arenas)) == Panicked
  {
    hide EarlyRuns.Inv, Carved, TakeAll, Proper;
    var r := SoundAfter(s, requests, tabled, after, bytes1, bytes2);
    FeedCompletes(r, arenas, zones, maxPhys);
  }

  /**
   Two usable arenas of whole pages, and six kilobytes of tables for the frame allocator: once these and the metadata
   have been carved, the higher region ends inside the first page of the second zone, and feeding panics on it before
   the lower arena is reached.
   */
  lemma BringUpPanics(zones: Zones)
    requires zones.Keys == {FrameFeed.Low, FrameFeed.Dma32}
    ensures Tidy(CUT_ARENAS)
    ensures var boot := EarlyRuns.Final(EarlyRuns.EMPTY, EarlyRuns.Donations(CUT_ARENAS)).free;
            && TakeAll(boot, CUT_TABLES) == Some(CUT_TABLED)
            && SectionBytes(CUT_TABLED, CUT_ARENAS, 32) == 64 && CellBytes(CUT_TABLED, CUT_ARENAS, 16) == 512
            && Carved(CUT_TABLED, CUT_FREE, 64, 512)
            && Sized(zones, CUT_FREE, CUT_ARENAS, 0x10_2000)
            && AllOutcome(zones, UsableRanges(CUT_FREE, CUT_ARENAS)) == Panicked
  {
    hide *;
    CutBoots();
    CutIsTabled();
    CutSizes();
    CutFacts(zones);
    Boot(CUT_ARENAS);
    CutProper();
    var boot := EarlyRuns.Final(EarlyRuns.EMPTY, EarlyRuns.Donations(CUT_ARENAS));
    CutPanics(boot, CUT_TABLES, CUT_TABLED, CUT_FREE, 64, 512, CUT_ARENAS, zones, 0x10_2000);
  }

  lemma CutProper()
    ensures Proper(CUT_TABLES)
  {
    assert 64 == Arithmetic.Pow2(6);
  }
}
