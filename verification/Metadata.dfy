/**
 Metadata for the page frames: sized before the boot heap is carved for it, laid out after. From
 `init_frame_allocator` and `BootUsableRanges` of kernel/src/memory/heap.rs and the `SlubRuntime` constructors
 and lookup of kernel/src/memory/slab.rs.
 */
module Metadata {
  import opened Arithmetic
  import opened Prelude
  import opened Arenas
  import opened EarlyHeap
  import FrameFeed
  import opened FrameAllocator

  const PAGE: nat := FrameFeed.PAGE

  // ---- Usable ranges

  function HeapRanges(list: seq<Region>): seq<Range> {
    if list == [] then [] else HeapRanges(list[..|list| - 1]) + [Range(list[|list| - 1].start, End(list[|list| - 1]))]
  }

  /** The parts of usable arenas that the boot heap left alone. */
  function LowRanges(arenas: seq<Arena>): seq<Range> {
    if arenas == [] then []
    else
      var a := arenas[|arenas| - 1];
      var rest := LowRanges(arenas[..|arenas| - 1]);
      var lowEnd := Min(a.end, LOW_MEM_THRESHOLD);
      if a.kind == Usable && a.start < lowEnd then rest + [Range(a.start, lowEnd)] else rest
  }

  /** `BootUsableRanges`. */
  function UsableRanges(list: seq<Region>, arenas: seq<Arena>): seq<Range> {
    HeapRanges(list) + LowRanges(arenas)
  }

  /** The page counts `boot_usable_range_stats` adds up. */
  function PagesIn(ranges: seq<Range>): nat {
    if ranges == [] then 0
    else PagesIn(ranges[..|ranges| - 1]) + RawPages(ranges[|ranges| - 1])
  }

  function RawPages(r: Range): nat {
    if r.end < r.start then 0 else (r.end - r.start) / PAGE
  }

  // ---- What the ranges are

  /** The address is in one of the ranges. */
  ghost predicate Inside(ranges: seq<Range>, x: nat) {
    exists i | 0 <= i < |ranges| :: ranges[i].start <= x < ranges[i].end
  }

  ghost predicate InUsable(arenas: seq<Arena>, x: nat) {
    exists i | 0 <= i < |arenas| :: arenas[i].kind == Usable && arenas[i].start <= x < arenas[i].end
  }

  ghost predicate InRegion(list: seq<Region>, x: nat) {
    exists i | 0 <= i < |list| :: list[i].start <= x < list[i].start + list[i].size
  }

  lemma InsideBoth(a: seq<Range>, b: seq<Range>, x: nat)
    ensures Inside(a + b, x) <==> Inside(a, x) || Inside(b, x)
  {
    if i :| 0 <= i < |a| && a[i].start <= x < a[i].end { assert (a + b)[i] == a[i]; }
    if i :| 0 <= i < |b| && b[i].start <= x < b[i].end { assert (a + b)[|a| + i] == b[i]; }
  }

  lemma InsideOne(r: Range, x: nat)
    ensures Inside([r], x) <==> r.start <= x < r.end
  {
    if r.start <= x < r.end { assert [r][0] == r; }
  }

  lemma LastUsable(arenas: seq<Arena>, x: nat)
    requires arenas != []
    ensures var a := arenas[|arenas| - 1];
            InUsable(arenas, x) <==> InUsable(arenas[..|arenas| - 1], x) || (a.kind == Usable && a.start <= x < a.end)
  {
    var before := arenas[..|arenas| - 1];
    if i :| 0 <= i < |before| && before[i].kind == Usable && before[i].start <= x < before[i].end {
      assert arenas[i] == before[i];
    }
    if i :| 0 <= i < |arenas| && arenas[i].kind == Usable && arenas[i].start <= x < arenas[i].end && i < |before| {
      assert arenas[i] == before[i];
    }
  }

  /** The low ranges hold exactly the usable addresses below 64 KiB. */
  lemma {:induction false} LowAddresses(arenas: seq<Arena>, x: nat)
    ensures Inside(LowRanges(arenas), x) <==> InUsable(arenas, x) && x < 0x1_0000
    decreases |arenas|
  {
    if arenas != [] {
      var before, a := arenas[..|arenas| - 1], arenas[|arenas| - 1];
      LowAddresses(before, x);
      LastUsable(arenas, x);
      var low := Range(a.start, Min(a.end, 0x1_0000));
      InsideBoth(LowRanges(before), [low], x);
      InsideOne(low, x);
      hide Inside, InUsable;
    }
  }

  lemma {:induction false} HeapAddresses(list: seq<Region>, x: nat)
    ensures Inside(HeapRanges(list), x) <==> InRegion(list, x)
    decreases |list|
  {
    if list != [] {
      var before, r := list[..|list| - 1], list[|list| - 1];
      HeapAddresses(before, x);
      LastRegion(list, x);
      InsideBoth(HeapRanges(before), [Range(r.start, End(r))], x);
      InsideOne(Range(r.start, End(r)), x);
      hide Inside, InRegion;
    }
  }

  lemma LastRegion(list: seq<Region>, x: nat)
    requires list != []
    ensures var r := list[|list| - 1];
            InRegion(list, x) <==> InRegion(list[..|list| - 1], x) || r.start <= x < r.start + r.size
  {
    var before := list[..|list| - 1];
    if i :| 0 <= i < |before| && before[i].start <= x < before[i].start + before[i].size { assert list[i] == before[i]; }
    if i :| 0 <= i < |list| && list[i].start <= x < list[i].start + list[i].size && i < |before| {
      assert list[i] == before[i];
    }
  }

  /** The usable ranges hold exactly the free addresses of the boot heap and the usable addresses below 64 KiB. */
  lemma UsableAddresses(list: seq<Region>, arenas: seq<Arena>, x: nat)
    ensures Inside(UsableRanges(list, arenas), x) <==> InRegion(list, x) || (InUsable(arenas, x) && x < 0x1_0000)
  {
    hide Inside, InRegion, InUsable;
    InsideBoth(HeapRanges(list), LowRanges(arenas), x);
    HeapAddresses(list, x);
    LowAddresses(arenas, x);
  }

  function Length(r: Range): nat {
    if r.end < r.start then 0 else r.end - r.start
  }

  function Bytes(ranges: seq<Range>): nat {
    if ranges == [] then 0 else Bytes(ranges[..|ranges| - 1]) + Length(ranges[|ranges| - 1])
  }

  /** The pages counted are those the bytes fill, with less than a page left over in each range. */
  lemma {:induction false} PagesAreFilled(ranges: seq<Range>)
    ensures PagesIn(ranges) * PAGE <= Bytes(ranges) <= PagesIn(ranges) * PAGE + |ranges| * (PAGE - 1)
  {
    if ranges != [] { PagesAreFilled(ranges[..|ranges| - 1]); }
  }

  // ---- Sections

  /** Whole pages of a range, and where their metadata starts. */
  datatype Section = Section(start: nat, end: nat, metas: nat)

  function WholePages(r: Range): nat {
    var start, end := AlignUp(r.start, PAGE), AlignDown(r.end, PAGE);
    if end <= start then 0 else (end - start) / PAGE
  }

  function Tracked(ranges: seq<Range>): nat {
    if ranges == [] then 0
    else Tracked(ranges[..|ranges| - 1]) + WholePages(ranges[|ranges| - 1])
  }

  /** The sections `from_storage` lays out when nothing stops it. */
  function Sections(ranges: seq<Range>): seq<Section> {
    if ranges == [] then []
    else
      var before, r := ranges[..|ranges| - 1], ranges[|ranges| - 1];
      if WholePages(r) == 0 then Sections(before)
      else Sections(before) + [Section(AlignUp(r.start, PAGE), AlignDown(r.end, PAGE), Tracked(before))]
  }

  lemma WholePagesZero(r: Range)
    ensures WholePages(r) == 0 <==> AlignDown(r.end, PAGE) <= AlignUp(r.start, PAGE)
  {
    var start, end := AlignUp(r.start, PAGE), AlignDown(r.end, PAGE);
    if start < end < start + PAGE { MultiplesApart(PAGE, end, start); }
  }

  // ---- Counting before is enough for after

  lemma WholeAtMostRaw(r: Range)
    ensures WholePages(r) <= RawPages(r)
  {
  }

  lemma {:induction false} NeedsAtMost(ranges: seq<Range>)
    ensures |Sections(ranges)| <= |ranges| && Tracked(ranges) <= PagesIn(ranges)
  {
    if ranges != [] {
      NeedsAtMost(ranges[..|ranges| - 1]);
      WholeAtMostRaw(ranges[|ranges| - 1]);
    }
  }

  lemma {:induction false} PagesInAppend(a: seq<Range>, b: seq<Range>)
    ensures PagesIn(a + b) == PagesIn(a) + PagesIn(b)
    decreases |b|
  {
    if b == [] {
      assert a + b == a;
    } else {
      PagesInAppend(a, b[..|b| - 1]);
      assert (a + b)[..|a + b| - 1] == a + b[..|b| - 1];
    }
  }

  lemma {:induction false} HeapRangesAppend(a: seq<Region>, b: seq<Region>)
    ensures HeapRanges(a + b) == HeapRanges(a) + HeapRanges(b)
    decreases |b|
  {
    if b == [] {
      assert a + b == a;
    } else {
      HeapRangesAppend(a, b[..|b| - 1]);
      assert (a + b)[..|a + b| - 1] == a + b[..|b| - 1];
    }
  }

  function OnePages(r: Region): nat {
    r.size / PAGE
  }

  lemma OneRange(r: Region)
    ensures HeapRanges([r]) == [Range(r.start, End(r))] && PagesIn(HeapRanges([r])) == OnePages(r)
  {
    assert [r][..0] == [];
    var one := [Range(r.start, End(r))];
    assert one[..0] == [];
  }

  lemma {:induction false} HeapRangesLength(list: seq<Region>)
    ensures |HeapRanges(list)| == |list|
  {
    if list != [] { HeapRangesLength(list[..|list| - 1]); }
  }

  /** The pages counted for a list split at one entry. */
  lemma PagesSplit(a: seq<Region>, mid: seq<Region>, b: seq<Region>)
    ensures PagesIn(HeapRanges(a + mid + b)) == PagesIn(HeapRanges(a)) + PagesIn(HeapRanges(mid)) + PagesIn(HeapRanges(b))
  {
    HeapRangesAppend(a, mid);
    HeapRangesAppend(a + mid, b);
    PagesInAppend(HeapRanges(a), HeapRanges(mid));
    PagesInAppend(HeapRanges(a) + HeapRanges(mid), HeapRanges(b));
  }

  lemma LeftoverPages(r: Region, a: nat)
    requires r.start <= a <= End(r)
    ensures |Leftover(r, a)| <= 1 && PagesIn(HeapRanges(Leftover(r, a))) <= OnePages(r)
  {
    if a - r.start >= HEADER { OneRange(Region(r.start, a - r.start)); }
  }

  /** Carving a block out of the heap leaves no more ranges and no more pages than before. */
  lemma CarvingShrinks(list: seq<Region>, size: nat, align: nat)
    requires align > 0 && Alloc(list, size, align).Some?
    ensures var after := Alloc(list, size, align).value.1;
            |after| <= |list| && PagesIn(HeapRanges(after)) <= PagesIn(HeapRanges(list))
  {
    var i := AllocFirstFit(list, size, align);
    var a, after := Alloc(list, size, align).value.0, Alloc(list, size, align).value.1;
    var left := Leftover(list[i], a);
    assert after == list[..i] + left + list[i + 1..];
    assert list == list[..i] + [list[i]] + list[i + 1..];
    LeftoverPages(list[i], a);
    OneRange(list[i]);
    PagesSplit(list[..i], left, list[i + 1..]);
    PagesSplit(list[..i], [list[i]], list[i + 1..]);
  }

  /**
   The counts taken before two blocks are carved out of the boot heap cover what is laid out afterwards, whatever
   the size and alignment of the blocks.
   */
  lemma SizingSuffices(list: seq<Region>, mid: seq<Region>, after: seq<Region>, arenas: seq<Arena>,
                       size1: nat, align1: nat, size2: nat, align2: nat)
    requires align1 > 0 && Alloc(list, size1, align1).Some? && Alloc(list, size1, align1).value.1 == mid
    requires align2 > 0 && Alloc(mid, size2, align2).Some? && Alloc(mid, size2, align2).value.1 == after
    ensures |Sections(UsableRanges(after, arenas))| <= |UsableRanges(list, arenas)|
    ensures Tracked(UsableRanges(after, arenas)) <= PagesIn(UsableRanges(list, arenas))
  {
    CarvingShrinks(list, size1, align1);
    CarvingShrinks(mid, size2, align2);
    NeedsAtMost(UsableRanges(after, arenas));
    HeapRangesLength(list);
    HeapRangesLength(after);
    PagesInAppend(HeapRanges(list), LowRanges(arenas));
    PagesInAppend(HeapRanges(after), LowRanges(arenas));
  }

  // ---- Cells

  predicate InSection(s: Section, phys: nat) {
    s.start <= phys < s.end
  }

  /** `meta_for_phys`, as an index into all the metadata. */
  function MetaFor(sections: seq<Section>, phys: nat): Option<nat> {
    if sections == [] then None
    else if InSection(sections[0], phys) then Some(sections[0].metas + (phys - sections[0].start) / PAGE)
    else MetaFor(sections[1..], phys)
  }

  /** The section an address is looked up in. */
  lemma {:induction false} FoundIn(sections: seq<Section>, phys: nat) returns (i: nat)
    ensures i <= |sections| && forall j | 0 <= j < i :: !InSection(sections[j], phys)
    ensures i < |sections| ==> InSection(sections[i], phys)
    ensures MetaFor(sections, phys) ==
            if i < |sections| then Some(sections[i].metas + (phys - sections[i].start) / PAGE) else None
    decreases |sections|
  {
    if sections == [] || InSection(sections[0], phys) {
      i := 0;
    } else {
      var k := FoundIn(sections[1..], phys);
      i := k + 1;
      assert forall j | 1 <= j < |sections| :: sections[j] == sections[1..][j - 1];
    }
  }

  function SectionPages(s: Section): nat {
    if s.end < s.start then 0 else (s.end - s.start) / PAGE
  }

  /** Sections of whole pages whose cells follow one another, within `total`. */
  predicate Laid(sections: seq<Section>, total: nat) {
    && (forall i | 0 <= i < |sections| ::
          sections[i].start % PAGE == 0 && sections[i].end % PAGE == 0 && sections[i].start < sections[i].end)
    && (forall i | 0 <= i < |sections| :: sections[i].metas + SectionPages(sections[i]) <= total)
    && (forall i, j | 0 <= i < j < |sections| :: sections[i].metas + SectionPages(sections[i]) <= sections[j].metas)
  }

  lemma AppendLaid(sections: seq<Section>, total: nat, s: Section)
    requires Laid(sections, total) && s.metas == total
    requires s.start % PAGE == 0 && s.end % PAGE == 0 && s.start < s.end
    ensures Laid(sections + [s], total + SectionPages(s))
  {
  }

  lemma {:induction false} SectionsLaid(ranges: seq<Range>)
    ensures Laid(Sections(ranges), Tracked(ranges))
    decreases |ranges|
  {
    if ranges != [] {
      var before, r := ranges[..|ranges| - 1], ranges[|ranges| - 1];
      SectionsLaid(before);
      WholePagesZero(r);
      if WholePages(r) > 0 {
        AppendLaid(Sections(before), Tracked(before), Section(AlignUp(r.start, PAGE), AlignDown(r.end, PAGE), Tracked(before)));
      }
    }
  }

  lemma CellInSection(s: Section, phys: nat)
    requires InSection(s, phys) && s.start % PAGE == 0 && s.end % PAGE == 0
    ensures (phys - s.start) / PAGE < SectionPages(s)
    ensures (phys - s.start) / PAGE == phys / PAGE - s.start / PAGE
    ensures forall q: nat | q / PAGE == phys / PAGE :: InSection(s, q)
  {
  }

  /** Distinct pages have distinct cells, addresses of one page share theirs, and no cell is out of bounds. */
  lemma CellsDistinct(ranges: seq<Range>, p: nat, q: nat)
    requires MetaFor(Sections(ranges), p).Some? && MetaFor(Sections(ranges), q).Some?
    ensures MetaFor(Sections(ranges), p) == MetaFor(Sections(ranges), q) <==> p / PAGE == q / PAGE
    ensures MetaFor(Sections(ranges), p).value < Tracked(ranges)
  {
    SectionsLaid(ranges);
    var sections := Sections(ranges);
    hide Sections, Tracked;
    var i := FoundIn(sections, p);
    var j := FoundIn(sections, q);
    hide MetaFor;
    CellInSection(sections[i], p);
    CellInSection(sections[j], q);
    hide InSection, SectionPages;
    if p / PAGE == q / PAGE {
      assert InSection(sections[i], q) && InSection(sections[j], p);
      assert i == j;
    } else {
      assert i == j || sections[i].metas + SectionPages(sections[i]) <= sections[j].metas
             || sections[j].metas + SectionPages(sections[j]) <= sections[i].metas;
    }
  }

  /** A page has a cell exactly when some range holds it whole. */
  lemma {:induction false} WholePagesTracked(ranges: seq<Range>, phys: nat)
    ensures MetaFor(Sections(ranges), phys).Some? <==>
            exists r | r in ranges :: AlignUp(r.start, PAGE) <= phys < AlignDown(r.end, PAGE)
    decreases |ranges|
  {
    if ranges != [] {
      var before, r := ranges[..|ranges| - 1], ranges[|ranges| - 1];
      WholePagesTracked(before, phys);
      WholePagesZero(r);
      var last := Section(AlignUp(r.start, PAGE), AlignDown(r.end, PAGE), Tracked(before));
      assert forall x :: x in ranges <==> x in before || x == r;
      hide AlignUp, AlignDown, WholePages;
      if Sections(ranges) != Sections(before) {
        assert Sections(ranges) == Sections(before) + [last];
        FoundAppend(Sections(before), last, phys);
      }
    }
  }

  lemma FoundAppend(sections: seq<Section>, last: Section, phys: nat)
    ensures MetaFor(sections + [last], phys).Some? <==> MetaFor(sections, phys).Some? || InSection(last, phys)
  {
    var all := sections + [last];
    assert all[|sections|] == last;
    var i := FoundIn(all, phys);
    var j := FoundIn(sections, phys);
    assert forall k | 0 <= k < |sections| :: all[k] == sections[k];
  }

  /** Every frame the zones are fed has its metadata. */
  lemma FedFramesTracked(ranges: seq<Range>, z: FrameFeed.Zone, f: nat)
    requires RangeCount(ranges, z, f) > 0
    ensures MetaFor(Sections(ranges), FrameFeed.ZoneStart(z) + f * PAGE).Some?
  {
    var r := FedBy(ranges, z, f);
    PageAligned(z, f);
    TrackedBy(ranges, r, FrameFeed.ZoneStart(z) + f * PAGE);
  }

  lemma PageAligned(z: FrameFeed.Zone, f: nat)
    ensures (FrameFeed.ZoneStart(z) + f * PAGE) % PAGE == 0
  {
    var q := FrameFeed.ZoneStart(z) / PAGE;
    DivUnique(PAGE, q + f, 0, FrameFeed.ZoneStart(z) + f * PAGE);
  }

  lemma TrackedBy(ranges: seq<Range>, r: Range, page: nat)
    requires r in ranges && page % PAGE == 0 && r.start <= page && page + PAGE <= r.end
    ensures MetaFor(Sections(ranges), page).Some?
  {
    WholePage(r, page);
    hide AlignUp, AlignDown;
    WholePagesTracked(ranges, page);
  }

  lemma WholePage(r: Range, page: nat)
    requires page % PAGE == 0 && r.start <= page && page + PAGE <= r.end
    ensures AlignUp(r.start, PAGE) <= page < AlignDown(r.end, PAGE)
  {
    var up, down := AlignUp(r.start, PAGE), AlignDown(r.end, PAGE);
    if page < up { MultiplesApart(PAGE, up, page); }
    if down <= page { MultiplesApart(PAGE, page, down); }
  }

  lemma {:induction false} FedBy(ranges: seq<Range>, z: FrameFeed.Zone, f: nat) returns (r: Range)
    requires RangeCount(ranges, z, f) > 0
    ensures r in ranges && FrameFeed.Whole(z, r.start, r.end, f)
    decreases |ranges|
  {
    r := ranges[|ranges| - 1];
    if !FrameFeed.Whole(z, r.start, r.end, f) { r := FedBy(ranges[..|ranges| - 1], z, f); }
  }
}
