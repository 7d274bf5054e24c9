/** Feeding usable memory to the zones of kernel/src/memory/frame.rs, range by range. */
module FrameAllocator {
  import opened Arithmetic
  import opened Prelude
  import opened FrameFeed

  /** What has been put into a zone, and its count of frames. */
  datatype ZoneState = ZoneState(puts: seq<Block>, total: nat)

  type Zones = map<Zone, ZoneState>

  datatype Range = Range(start: nat, end: nat)

  /** How feeding ends: done, looping forever on an address no zone manages, or a failed assertion. */
  datatype Outcome = Fed | Stuck | Panicked

  // ---- What feeding should do

  function FirstIn(z: Zone, a: nat): nat {
    FirstFrame(z, Max(a, ZoneStart(z)))
  }

  function EndIn(z: Zone, b: nat): nat {
    EndFrame(z, Max(ZoneStart(z), Min(b, ZoneEnd(z))))
  }

  /** A zone after a range: one more tiling of the frames whose whole page is in the range. */
  function FedInto(st: ZoneState, z: Zone, r: Range, maxOrder: nat): ZoneState {
    var first, end := FirstIn(z, r.start), EndIn(z, r.end);
    ZoneState(st.puts + Blocks(first, end, maxOrder), st.total + Max(0, end - first))
  }

  function FedRange(zones: Zones, r: Range, maxOrder: nat): Zones {
    map z | z in zones :: FedInto(zones[z], z, r, maxOrder)
  }

  function FedAll(zones: Zones, ranges: seq<Range>, maxOrder: nat): Zones {
    if ranges == [] then zones
    else FedRange(FedAll(zones, ranges[..|ranges| - 1], maxOrder), ranges[|ranges| - 1], maxOrder)
  }

  /** A range that ends inside a zone's first page, short of it. */
  predicate EndsInFirstPage(zones: Zones, r: Range) {
    exists z | z in zones :: ZoneStart(z) < r.end < ZoneStart(z) + PAGE
  }

  predicate Unmanaged(zones: Zones, r: Range) {
    Normal !in zones && r.end > ZoneStart(Normal)
  }

  function RangeOutcome(zones: Zones, r: Range): Outcome {
    if r.start >= r.end then Fed
    else if EndsInFirstPage(zones, r) then Panicked
    else if Unmanaged(zones, r) then Stuck
    else Fed
  }

  /** The outcome of the first range that does not go through. */
  function AllOutcome(zones: Zones, ranges: seq<Range>): Outcome {
    if ranges == [] then Fed
    else
      var before := AllOutcome(zones, ranges[..|ranges| - 1]);
      if before != Fed then before else RangeOutcome(zones, ranges[|ranges| - 1])
  }

  // ---- What that means for frames

  lemma ClippedWhole(z: Zone, r: Range, f: nat)
    ensures FirstIn(z, r.start) <= f < EndIn(z, r.end) <==> Whole(z, r.start, r.end, f)
  {
    FramesAreWhole(z, Max(r.start, ZoneStart(z)), Max(ZoneStart(z), Min(r.end, ZoneEnd(z))), f);
  }

  /** How many of the ranges hold the whole page of a frame. */
  function RangeCount(ranges: seq<Range>, z: Zone, f: nat): nat {
    if ranges == [] then 0
    else
      var r := ranges[|ranges| - 1];
      RangeCount(ranges[..|ranges| - 1], z, f) + if Whole(z, r.start, r.end, f) then 1 else 0
  }

  /** A frame is put exactly once for every range that holds its whole page. */
  lemma {:induction false} PutOncePerRange(zones: Zones, ranges: seq<Range>, maxOrder: nat, z: Zone, f: nat)
    requires z in zones
    ensures z in FedAll(zones, ranges, maxOrder)
    ensures PutCount(FedAll(zones, ranges, maxOrder)[z].puts, f) == PutCount(zones[z].puts, f) + RangeCount(ranges, z, f)
    decreases |ranges|
  {
    if ranges != [] {
      var init, r := ranges[..|ranges| - 1], ranges[|ranges| - 1];
      PutOncePerRange(zones, init, maxOrder, z, f);
      var st := FedAll(zones, init, maxOrder)[z];
      hide FedAll, Blocks, Whole;
      assert FedAll(zones, ranges, maxOrder)[z] == FedInto(st, z, r, maxOrder);
      PutCountAppend(st.puts, Blocks(FirstIn(z, r.start), EndIn(z, r.end), maxOrder), f);
      BlocksTile(FirstIn(z, r.start), EndIn(z, r.end), maxOrder, f);
      ClippedWhole(z, r, f);
    }
  }

  /** Ranges that do not overlap put no frame twice. */
  lemma {:induction false} DisjointPutOnce(ranges: seq<Range>, z: Zone, f: nat)
    requires forall i, j | 0 <= i < j < |ranges| :: ranges[i].end <= ranges[j].start || ranges[j].end <= ranges[i].start
    ensures RangeCount(ranges, z, f) <= 1
    ensures RangeCount(ranges, z, f) == 1 <==> exists i | 0 <= i < |ranges| :: Whole(z, ranges[i].start, ranges[i].end, f)
    decreases |ranges|
  {
    if ranges != [] {
      var n := |ranges| - 1;
      DisjointPutOnce(ranges[..n], z, f);
      if Whole(z, ranges[n].start, ranges[n].end, f) {
        forall i | 0 <= i < n ensures !Whole(z, ranges[i].start, ranges[i].end, f) { }
      } else if i :| 0 <= i < n && Whole(z, ranges[i].start, ranges[i].end, f) {
        assert ranges[..n][i] == ranges[i];
      }
    }
  }

  /** A zone is sized for exactly the frames that begin below the machine's highest address and end inside the zone. */
  lemma CapacityIsExact(z: Zone, maxPhys: nat, frame: nat)
    ensures frame < FrameNumUntil(z, maxPhys)
       <==> ZoneStart(z) + frame * PAGE < maxPhys && ZoneStart(z) + frame * PAGE + PAGE <= ZoneEnd(z)
  {
    var first := ZoneStart(z) + frame * PAGE;
    var top := AlignUp(maxPhys, PAGE);
    if first < maxPhys && top < first + PAGE { MultiplesApart(PAGE, top, first); }
    if maxPhys <= first && first < top { MultiplesApart(PAGE, top, first); }
    hide AlignUp;
  }

  /** Whole pages of a range that lies in the machine's memory are frames the zone was sized for. */
  lemma WithinCapacity(z: Zone, r: Range, maxPhys: nat)
    requires r.end <= maxPhys
    ensures EndIn(z, r.end) <= FrameNumUntil(z, maxPhys)
  {
  }

  /** The frames in a list of blocks. */
  function FrameSum(blocks: seq<Block>): nat {
    if blocks == [] then 0 else FrameSum(blocks[..|blocks| - 1]) + Pow2(blocks[|blocks| - 1].order)
  }

  lemma {:induction false} FrameSumAppend(a: seq<Block>, b: seq<Block>)
    ensures FrameSum(a + b) == FrameSum(a) + FrameSum(b)
    decreases |b|
  {
    if b == [] {
      assert a + b == a;
    } else {
      FrameSumAppend(a, b[..|b| - 1]);
      assert (a + b)[..|a + b| - 1] == a + b[..|b| - 1];
    }
  }

  lemma {:induction false} BlocksSum(frame: nat, end: nat, maxOrder: nat)
    ensures FrameSum(Blocks(frame, end, maxOrder)) == Max(0, end - frame)
    decreases end - frame
  {
    if frame < end {
      var k := OrderAt(frame, end - frame, maxOrder);
      PowMonotone(k, FloorLog2(end - frame));
      var first, rest := [Block(frame, k)], Blocks(frame + Pow2(k), end, maxOrder);
      BlocksSum(frame + Pow2(k), end, maxOrder);
      FrameSumAppend(first, rest);
      assert FrameSum(first) == Pow2(k) by { assert first[..0] == []; }
    }
  }

  /** The count of a zone is the number of frames put into it. */
  lemma {:induction false} TotalIsFramesPut(zones: Zones, ranges: seq<Range>, maxOrder: nat, z: Zone)
    requires z in zones && zones[z].total == FrameSum(zones[z].puts)
    ensures z in FedAll(zones, ranges, maxOrder)
    ensures FedAll(zones, ranges, maxOrder)[z].total == FrameSum(FedAll(zones, ranges, maxOrder)[z].puts)
    decreases |ranges|
  {
    if ranges != [] {
      var init, r := ranges[..|ranges| - 1], ranges[|ranges| - 1];
      TotalIsFramesPut(zones, init, maxOrder, z);
      var st := FedAll(zones, init, maxOrder)[z];
      hide FedAll, Blocks;
      assert FedAll(zones, ranges, maxOrder)[z] == FedInto(st, z, r, maxOrder);
      FrameSumAppend(st.puts, Blocks(FirstIn(z, r.start), EndIn(z, r.end), maxOrder));
      BlocksSum(FirstIn(z, r.start), EndIn(z, r.end), maxOrder);
    }
  }

  /** Page-aligned ranges never fail the assertion, and with a zone for every address they all go through. */
  lemma {:induction false} AlignedRangesGoThrough(zones: Zones, ranges: seq<Range>)
    requires forall r | r in ranges :: r.start % PAGE == 0 && r.end % PAGE == 0 && !Unmanaged(zones, r)
    ensures AllOutcome(zones, ranges) == Fed
    decreases |ranges|
  {
    if ranges != [] {
      AlignedRangesGoThrough(zones, ranges[..|ranges| - 1]);
      var r := ranges[|ranges| - 1];
      forall z | z in zones ensures !(ZoneStart(z) < r.end < ZoneStart(z) + PAGE) {
        if ZoneStart(z) <= r.end < ZoneStart(z) + PAGE { MultiplesApart(PAGE, r.end, ZoneStart(z)); }
      }
    }
  }

  /** The whole list goes through exactly when each range would; a list with no unmanaged range never loops. */
  lemma {:induction false} AllFedIff(zones: Zones, ranges: seq<Range>)
    ensures AllOutcome(zones, ranges) == Fed <==> forall r | r in ranges :: RangeOutcome(zones, r) == Fed
    ensures (forall r | r in ranges :: !Unmanaged(zones, r)) ==> AllOutcome(zones, ranges) != Stuck
    decreases |ranges|
  {
    if ranges != [] {
      var n := |ranges| - 1;
      AllFedIff(zones, ranges[..n]);
      hide RangeOutcome;
      assert forall r :: r in ranges <==> r in ranges[..n] || r == ranges[n];
      assert !Unmanaged(zones, ranges[n]) ==> RangeOutcome(zones, ranges[n]) != Stuck by { ManagedFinishes(zones, ranges[n]); }
    }
  }

  lemma ManagedFinishes(zones: Zones, r: Range)
    ensures !Unmanaged(zones, r) ==> RangeOutcome(zones, r) != Stuck
  {
  }

  /** Without a normal zone, a page at 4 GiB is retried forever. */
  lemma FeedLoops()
    ensures RangeOutcome(map[Low := ZoneState([], 0), Dma32 := ZoneState([], 0)], Range(0x1_0000_0000, 0x1_0000_1000)) == Stuck
  {
  }

  /** Half a page at the start of the second zone fails the assertion. */
  lemma FeedPanics()
    ensures RangeOutcome(map[Low := ZoneState([], 0), Dma32 := ZoneState([], 0)], Range(0x10_0000, 0x10_0800)) == Panicked
  {
    assert ZoneStart(Dma32) < 0x10_0800 < ZoneStart(Dma32) + PAGE;
  }

  // ---- As it runs

  /** Feeding a range up to `s` so far. */
  ghost predicate FedUpTo(start: Zones, zones: Zones, a: nat, s: nat, maxOrder: nat) {
    zones == FedRange(start, Range(a, s), maxOrder)
  }

  predicate Border(a: nat, s: nat) {
    s == a || exists z: Zone :: s == ZoneStart(z) && s > a
  }

  lemma NextBorder(a: nat, z: Zone, s: nat)
    requires a <= s && Contains(z, s) && ZoneEnd(z) < USIZE_MAX
    ensures Border(a, ZoneEnd(z))
  {
    assert ZoneEnd(z) == ZoneStart(if z == Low then Dma32 else Normal);
  }

  lemma NothingFed(st: ZoneState, z: Zone, r: Range, maxOrder: nat)
    requires r.end <= r.start || r.end <= ZoneStart(z) || ZoneEnd(z) <= r.start
    ensures FedInto(st, z, r, maxOrder) == st
  {
    if FirstIn(z, r.start) < EndIn(z, r.end) { ClippedWhole(z, r, FirstIn(z, r.start)); }
    assert st.puts + [] == st.puts;
  }

  lemma SameZone(st: ZoneState, z: Zone, a: nat, s: nat, e: nat, maxOrder: nat)
    requires Contains(z, s) && a <= s && Border(a, s)
    ensures FedInto(FedInto(st, z, Range(a, s), maxOrder), z, Range(s, e), maxOrder) == FedInto(st, z, Range(a, e), maxOrder)
  {
    NothingFed(st, z, Range(a, s), maxOrder);
    hide FirstFrame, EndFrame, Blocks;
    assert Max(a, ZoneStart(z)) == Max(s, ZoneStart(z));
  }

  /** Marking the next piece in its zone is feeding that much more of the range. */
  lemma PieceFed(start: Zones, zones: Zones, a: nat, s: nat, z: Zone, e: nat, maxOrder: nat)
    requires FedUpTo(start, zones, a, s, maxOrder) && z in start && Contains(z, s) && s < e <= ZoneEnd(z)
    requires a <= s && Border(a, s)
    ensures FedUpTo(start, zones[z := FedInto(zones[z], z, Range(s, e), maxOrder)], a, e, maxOrder)
  {
    hide FedInto, Border;
    var zones' := zones[z := FedInto(zones[z], z, Range(s, e), maxOrder)];
    SameZone(start[z], z, a, s, e, maxOrder);
    forall y | y in start && y != z ensures zones'[y] == FedInto(start[y], y, Range(a, e), maxOrder) {
      OtherZone(start[y], y, z, a, s, e, maxOrder);
    }
    assert zones' == FedRange(start, Range(a, e), maxOrder);
  }

  lemma OtherZone(st: ZoneState, y: Zone, z: Zone, a: nat, s: nat, e: nat, maxOrder: nat)
    requires y != z && Contains(z, s) && s < e <= ZoneEnd(z)
    ensures FedInto(st, y, Range(a, s), maxOrder) == FedInto(st, y, Range(a, e), maxOrder)
  {
    if ZoneEnd(z) <= ZoneStart(y) {
      NothingFed(st, y, Range(a, s), maxOrder);
      NothingFed(st, y, Range(a, e), maxOrder);
    } else {
      assert ZoneEnd(y) <= ZoneStart(z);
    }
  }

  class Allocator {
    const maxOrder: nat
    var zones: Zones

    constructor (maxOrder: nat, maxPhys: nat)
      ensures this.maxOrder == maxOrder
      ensures zones.Keys == if maxPhys > ZoneStart(Normal) then {Low, Dma32, Normal} else {Low, Dma32}
      ensures forall z | z in zones :: zones[z] == ZoneState([], 0)
    {
      this.maxOrder := maxOrder;
      var empty := ZoneState([], 0);
      zones := if maxPhys > ZoneStart(Normal) then map[Low := empty, Dma32 := empty, Normal := empty]
               else map[Low := empty, Dma32 := empty];
    }

    /** `mark_usable`; false when its assertion fails. */
    method MarkUsable(z: Zone, r: Range) returns (ok: bool)
      requires z in zones && r.end <= USIZE_MAX
      modifies this`zones
      ensures ok == (Contains(z, r.start) && AlignDown(r.end, PAGE) >= 1 && Contains(z, AlignDown(r.end, PAGE) - 1))
      ensures ok ==> zones == old(zones)[z := FedInto(old(zones)[z], z, r, maxOrder)]
      ensures !ok ==> zones == old(zones)
    {
      hide Blocks;
      var start, end := AlignUp(r.start, PAGE), AlignDown(r.end, PAGE);
      if !Contains(z, r.start) || end == 0 || !Contains(z, end - 1) { return false; }
      if end <= start || end - start < PAGE {
        NoWholePage(zones[z], z, r, maxOrder);
        return true;
      }
      PageCount(z, r);
      hide AlignUp, AlignDown, FirstIn, EndIn;
      var frame, frameEnd := (start - ZoneStart(z)) / PAGE, (end - ZoneStart(z)) / PAGE;
      PutBlocks(z, frame, frameEnd);
      zones := zones[z := zones[z].(total := zones[z].total + (end - start) / PAGE)];
      return true;
    }

    /** The loop of `feed` on one range. */
    method FeedRange(r: Range) returns (outcome: Outcome)
      requires Low in zones && Dma32 in zones && r.end <= USIZE_MAX
      modifies this`zones
      ensures outcome == RangeOutcome(old(zones), r) && zones.Keys == old(zones).Keys
      ensures outcome == Fed ==> zones == FedRange(old(zones), r, maxOrder)
    {
      hide FedInto, FedRange;
      ghost var start := zones;
      var s := r.start;
      NothingFedYet(zones, r.start, r.start, maxOrder);
      if r.start >= r.end { NothingFedYet(zones, r.start, r.end, maxOrder); }
      while s < r.end
        invariant zones.Keys == start.Keys && r.start <= s
        invariant s < r.end ==> FedUpTo(start, zones, r.start, s, maxOrder) && Border(r.start, s)
        invariant s >= r.end ==> RangeOutcome(start, r) == Fed && FedUpTo(start, zones, r.start, r.end, maxOrder)
      {
        if !(s < ZoneStart(Normal) || Normal in zones) { return Stuck; }
        var z := if Contains(Low, s) then Low else if Contains(Dma32, s) then Dma32 else Normal;
        var e := Min(r.end, ZoneEnd(z));
        PieceAccepted(z, s, r);
        if r.end <= ZoneEnd(z) { LastPiece(zones, z, s, r); }
        PieceFed(start, zones, r.start, s, z, e, maxOrder);
        var ok := MarkUsable(z, Range(s, e));
        if !ok { return Panicked; }
        if e < r.end { NextBorder(r.start, z, s); }
        s := e;
      }
      return Fed;
    }

    /** `feed`: the ranges in order, up to the first that does not go through. */
    method Feed(ranges: seq<Range>) returns (outcome: Outcome)
      requires Low in zones && Dma32 in zones && forall r | r in ranges :: r.end <= USIZE_MAX
      modifies this`zones
      ensures outcome == AllOutcome(old(zones), ranges) && zones.Keys == old(zones).Keys
      ensures outcome == Fed ==> zones == FedAll(old(zones), ranges, maxOrder)
    {
      ghost var start := zones;
      assert ranges[..0] == [];
      for i := 0 to |ranges|
        invariant zones == FedAll(start, ranges[..i], maxOrder) && zones.Keys == start.Keys
        invariant AllOutcome(start, ranges[..i]) == Fed
      {
        assert ranges[..i + 1][..i] == ranges[..i];
        OutcomeByZones(zones, start, ranges[i]);
        hide FedRange, RangeOutcome;
        outcome := FeedRange(ranges[i]);
        if outcome != Fed {
          StopsHere(start, ranges, i);
          return;
        }
      }
      assert ranges[..|ranges|] == ranges;
      return Fed;
    }

    /** The loop of `mark_usable`. */
    method PutBlocks(z: Zone, first: nat, end: nat)
      requires z in zones
      modifies this`zones
      ensures zones == old(zones)[z := old(zones)[z].(puts := old(zones)[z].puts + Blocks(first, end, maxOrder))]
    {
      var frame := first;
      ghost var st := zones[z];
      while frame < end
        invariant z in zones && zones == old(zones)[z := zones[z]] && zones[z].total == st.total
        invariant zones[z].puts + Blocks(frame, end, maxOrder) == st.puts + Blocks(first, end, maxOrder)
        decreases end - frame
      {
        var order := Min(Min(TrailingZeros(frame), maxOrder), FloorLog2(end - frame));
        ghost var rest := Blocks(frame + Pow2(order), end, maxOrder);
        assert Blocks(frame, end, maxOrder) == [Block(frame, order)] + rest;
        ghost var before := zones[z].puts;
        assert before + ([Block(frame, order)] + rest) == (before + [Block(frame, order)]) + rest;
        zones := zones[z := zones[z].(puts := zones[z].puts + [Block(frame, order)])];
        frame := frame + Pow2(order);
      }
      assert zones[z].puts + [] == zones[z].puts;
    }
  }

  lemma NothingFedYet(zones: Zones, a: nat, b: nat, maxOrder: nat)
    requires b <= a
    ensures FedUpTo(zones, zones, a, b, maxOrder)
  {
    forall z | z in zones ensures FedInto(zones[z], z, Range(a, b), maxOrder) == zones[z] {
      NothingFed(zones[z], z, Range(a, b), maxOrder);
    }
    hide FedInto;
    assert zones == FedRange(zones, Range(a, b), maxOrder);
  }

  /** The assertion in `mark_usable` fails on a piece exactly when the range ends in the zone's first page. */
  lemma PieceAccepted(z: Zone, s: nat, r: Range)
    requires Contains(z, s) && s < r.end <= USIZE_MAX
    ensures var end := AlignDown(Min(r.end, ZoneEnd(z)), PAGE);
            (end >= 1 && Contains(z, end - 1)) <==> !(ZoneStart(z) < r.end < ZoneStart(z) + PAGE)
  {
  }

  lemma LastPiece(zones: Zones, z: Zone, s: nat, r: Range)
    requires z in zones && Contains(z, s) && s < r.end <= ZoneEnd(z)
    ensures EndsInFirstPage(zones, r) <==> ZoneStart(z) < r.end < ZoneStart(z) + PAGE
    ensures !Unmanaged(zones, r)
  {
  }

  lemma OutcomeByZones(a: Zones, b: Zones, r: Range)
    requires a.Keys == b.Keys
    ensures RangeOutcome(a, r) == RangeOutcome(b, r)
  {
  }

  /** Nothing after the first range that does not go through matters. */
  lemma {:induction false} StopsHere(zones: Zones, ranges: seq<Range>, i: nat)
    requires i < |ranges| && AllOutcome(zones, ranges[..i]) == Fed && RangeOutcome(zones, ranges[i]) != Fed
    ensures AllOutcome(zones, ranges) == RangeOutcome(zones, ranges[i])
    decreases |ranges|
  {
    var n := |ranges| - 1;
    if i < n {
      assert ranges[..n][..i] == ranges[..i];
      StopsHere(zones, ranges[..n], i);
    }
  }

  lemma NoWholePage(st: ZoneState, z: Zone, r: Range, maxOrder: nat)
    requires AlignDown(r.end, PAGE) <= AlignUp(r.start, PAGE)
    ensures FedInto(st, z, r, maxOrder) == st
  {
    if FirstIn(z, r.start) < EndIn(z, r.end) { ClippedWhole(z, r, FirstIn(z, r.start)); }
    assert st.puts + [] == st.puts;
  }

  lemma PageCount(z: Zone, r: Range)
    requires ZoneStart(z) <= r.start && r.end <= USIZE_MAX
    requires AlignUp(r.start, PAGE) <= AlignDown(r.end, PAGE) <= ZoneEnd(z)
    ensures (AlignDown(r.end, PAGE) - AlignUp(r.start, PAGE)) / PAGE == Max(0, EndIn(z, r.end) - FirstIn(z, r.start))
    ensures FirstIn(z, r.start) == (AlignUp(r.start, PAGE) - ZoneStart(z)) / PAGE
    ensures EndIn(z, r.end) == (AlignDown(r.end, PAGE) - ZoneStart(z)) / PAGE
  {
  }
}
