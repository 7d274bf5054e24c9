/**
 The boot heap of kernel/src/memory/early.rs on values: free regions, highest first, and the two operations on
 them. Addresses are those of the direct map, whose offset to physical addresses is taken to be zero.
 */
module EarlyHeap {
  import opened Arithmetic
  import opened Prelude

  /** Memory below this address is left alone. */
  const LOW_MEM_THRESHOLD: nat := 0x10000

  /** Size and alignment of the header at the start of a free region. */
  const HEADER: nat := 16
  const HEADER_ALIGN: nat := 8

  datatype Region = Region(start: nat, size: nat)

  function End(r: Region): nat {
    r.start + r.size
  }

  // ---- add_region

  /** What is kept of a donated range: nothing low, aligned, and large enough for a header. */
  function Trim(start: nat, size: nat): Option<Region> {
    var low := if start < LOW_MEM_THRESHOLD then LOW_MEM_THRESHOLD else start;
    var end := start + size;
    if start < LOW_MEM_THRESHOLD && end <= LOW_MEM_THRESHOLD then None
    else
      var aligned := AlignUp(low, HEADER_ALIGN);
      if aligned >= end || end - aligned < HEADER then None
      else Some(Region(aligned, end - aligned))
  }

  /** A region inside a range that the heap could use: not in the first 64 KiB, aligned, with room for a header. */
  predicate Suits(r: Region, start: nat, size: nat) {
    start <= r.start && End(r) <= start + size && r.start >= 0x1_0000 && r.start % 8 == 0 && r.size >= 16
  }

  /** Nothing is kept of a range exactly when it holds no such region; else the one kept holds all of them. */
  lemma TrimKeepsMost(start: nat, size: nat)
    ensures Trim(start, size).None? <==> forall r :: !Suits(r, start, size)
    ensures Trim(start, size).Some? ==>
              var kept := Trim(start, size).value;
              && Suits(kept, start, size)
              && forall r | Suits(r, start, size) :: kept.start <= r.start && End(r) <= End(kept)
  {
    var low := if start < 0x1_0000 then 0x1_0000 else start;
    var first := AlignUp(low, 8);
    forall r | Suits(r, start, size) ensures first <= r.start {
      if r.start < first { MultiplesApart(8, first, r.start); }
    }
    if Trim(start, size).Some? { assert Suits(Trim(start, size).value, start, size); }
  }

  /** How much is kept. */
  function Gain(start: nat, size: nat): nat {
    match Trim(start, size)
    case None => 0
    case Some(r) => r.size
  }

  /** The bytes of a range above the first 64 KiB. */
  function Above(start: nat, size: nat): nat {
    var low := Max(start, 0x1_0000);
    if start + size <= low then 0 else start + size - low
  }

  lemma AlignedAlready(x: nat)
    requires x % 8 == 0
    ensures AlignUp(x, 8) == x
  {
    MultiplesApart(8, AlignUp(x, 8), x);
  }

  /** Less than 8 of them are lost, or less than 24 when nothing is kept, and none of an aligned, large enough range. */
  lemma TrimGains(start: nat, size: nat)
    ensures Gain(start, size) <= Above(start, size) < Gain(start, size) + if Gain(start, size) > 0 then 8 else 24
    ensures start % 8 == 0 && Above(start, size) >= 16 ==> Gain(start, size) == Above(start, size)
  {
    var low := Max(start, 0x1_0000);
    if start % 8 == 0 { AlignedAlready(low); }
    var first := AlignUp(low, 8);
    TrimFrom(start, size, first);
    hide Trim, AlignUp;
    assert low <= first < low + 8;
  }

  lemma TrimFrom(start: nat, size: nat, first: nat)
    requires first == AlignUp(Max(start, 0x1_0000), 8)
    ensures Trim(start, size) == if start + size < first + 16 then None else Some(Region(first, start + size - first))
  {
    hide AlignUp;
  }

  function InsertBelow(list: seq<Region>, r: Region): seq<Region> {
    if list == [] || list[0].start <= r.start then [r] + list else [list[0]] + InsertBelow(list[1..], r)
  }

  /** `insert_node`: a new head, or in its place below the head. */
  function Insert(list: seq<Region>, r: Region): seq<Region> {
    if list == [] || r.start > list[0].start then [r] + list else [list[0]] + InsertBelow(list[1..], r)
  }

  function AddRegion(list: seq<Region>, start: nat, size: nat): seq<Region> {
    match Trim(start, size)
    case None => list
    case Some(r) => Insert(list, r)
  }

  // ---- alloc

  /** The address `alloc` would take in a region: the highest aligned one, if it is inside. */
  function Place(r: Region, size: nat, align: nat): Option<nat>
    requires align > 0
  {
    if End(r) < size then None
    else
      var a := AlignDown(End(r) - size, align);
      if a >= r.start then Some(a) else None
  }

  /** What is left of a region: its part below, unless that cannot hold a header. */
  function Leftover(r: Region, a: nat): seq<Region>
    requires a >= r.start
  {
    if a - r.start < HEADER then [] else [Region(r.start, a - r.start)]
  }

  /** First fit from the highest region: the address and the list after. */
  function Alloc(list: seq<Region>, size: nat, align: nat): Option<(nat, seq<Region>)>
    requires align > 0
  {
    if list == [] then None
    else
      match Place(list[0], size, align)
      case Some(a) => Some((a, Leftover(list[0], a) + list[1..]))
      case None =>
        match Alloc(list[1..], size, align)
        case None => None
        case Some((a, rest)) => Some((a, [list[0]] + rest))
  }

  /** The requested size and alignment as `alloc` takes them. */
  function Rounded(size: nat): (n: nat)
    ensures n >= 1 && n >= size && (n == 1 || n == size)
  {
    Max(size, 1)
  }

  function Raised(align: nat): (n: nat)
    ensures n >= HEADER_ALIGN && n >= align && (n == HEADER_ALIGN || n == align)
  {
    Max(align, HEADER_ALIGN)
  }

  // ---- What alloc finds

  /** An aligned block of `size` bytes fits in the region at `p`. */
  predicate Fits(r: Region, p: nat, size: nat, align: nat)
    requires align > 0
  {
    r.start <= p && p + size <= End(r) && p % align == 0
  }

  /** `Place` finds the highest place there is. */
  lemma PlaceIsHighest(r: Region, size: nat, align: nat)
    requires align > 0
    ensures Place(r, size, align).Some? ==> Fits(r, Place(r, size, align).value, size, align)
    ensures forall p: nat | Fits(r, p, size, align) :: Place(r, size, align).Some? && p <= Place(r, size, align).value
  {
    forall p: nat | Fits(r, p, size, align) ensures Place(r, size, align).Some? && p <= Place(r, size, align).value {
      var a := AlignDown(End(r) - size, align);
      if p > a { MultiplesApart(align, p, a); }
    }
  }

  /** The region taken is the first with a place. */
  ghost predicate TakenFrom(list: seq<Region>, size: nat, align: nat, i: nat)
    requires align > 0
  {
    && i < |list|
    && Place(list[i], size, align).Some?
    && Place(list[i], size, align).value >= list[i].start
    && var a := Place(list[i], size, align).value;
      Alloc(list, size, align) == Some((a, list[..i] + Leftover(list[i], a) + list[i + 1..]))
  }

  lemma {:induction false} AllocIs(list: seq<Region>, size: nat, align: nat) returns (i: nat)
    requires align > 0
    ensures i <= |list|
    ensures forall j | 0 <= j < i :: Place(list[j], size, align) == None
    ensures i == |list| ==> Alloc(list, size, align) == None
    ensures i < |list| ==> TakenFrom(list, size, align, i)
    decreases |list|
  {
    if list == [] {
      i := 0;
    } else if Place(list[0], size, align).Some? {
      i := 0;
      var left := Leftover(list[0], Place(list[0], size, align).value);
      assert list[..0] + left + list[1..] == left + list[1..];
    } else {
      hide Place, Leftover;
      var k := AllocIs(list[1..], size, align);
      i := k + 1;
      if k < |list[1..]| {
        assert list[1..][k] == list[i] && list[1..][k + 1..] == list[i + 1..];
        var left := Leftover(list[i], Place(list[i], size, align).value);
        assert [list[0]] + (list[1..][..k] + left + list[i + 1..]) == list[..i] + left + list[i + 1..];
      }
    }
  }

  /** No region of the list can hold an aligned block. */
  ghost predicate NoRoom(list: seq<Region>, size: nat, align: nat)
    requires align > 0
  {
    forall j, p: nat | 0 <= j < |list| :: !Fits(list[j], p, size, align)
  }

  /**
   Allocation fails exactly when no free region can hold an aligned block. Otherwise it takes the highest aligned
   address of the highest region that can.
   */
  lemma AllocFirstFit(list: seq<Region>, size: nat, align: nat) returns (i: nat)
    requires align > 0
    ensures Alloc(list, size, align) == None <==> NoRoom(list, size, align)
    ensures Alloc(list, size, align).Some? ==>
              && TakenFrom(list, size, align, i)
              && NoRoom(list[..i], size, align)
              && Fits(list[i], Alloc(list, size, align).value.0, size, align)
              && forall p: nat | Fits(list[i], p, size, align) :: p <= Alloc(list, size, align).value.0
  {
    i := AllocIs(list, size, align);
    forall j | 0 <= j < |list| && j <= i ensures var q := Place(list[j], size, align);
        && (q.Some? ==> Fits(list[j], q.value, size, align))
        && forall p: nat | Fits(list[j], p, size, align) :: q.Some? && p <= q.value
    {
      PlaceIsHighest(list[j], size, align);
    }
    hide Place, Leftover, Fits, Alloc;
  }

  // ---- Bytes

  function FreeBytes(list: seq<Region>): nat {
    if list == [] then 0 else FreeBytes(list[..|list| - 1]) + list[|list| - 1].size
  }

  lemma {:induction false} FreeBytesAppend(a: seq<Region>, b: seq<Region>)
    ensures FreeBytes(a + b) == FreeBytes(a) + FreeBytes(b)
    decreases |b|
  {
    if b == [] {
      assert a + b == a;
    } else {
      FreeBytesAppend(a, b[..|b| - 1]);
      assert (a + b)[..|a + b| - 1] == a + b[..|b| - 1];
    }
  }

  lemma FreeBytesSplit(a: seq<Region>, mid: seq<Region>, b: seq<Region>)
    ensures FreeBytes(a + mid + b) == FreeBytes(a) + FreeBytes(mid) + FreeBytes(b)
  {
    FreeBytesAppend(a, mid);
    FreeBytesAppend(a + mid, b);
  }

  lemma OneRegion(r: Region)
    ensures FreeBytes([r]) == r.size
  {
    assert [r][..0] == [];
  }

  lemma PlaceIsNearEnd(r: Region, size: nat, align: nat)
    requires align > 0 && Place(r, size, align).Some?
    ensures var a := Place(r, size, align).value;
            r.start <= a && a + size <= End(r) < a + size + align
  {
  }

  /** An allocation costs its size, less than one alignment of padding above it and less than one header below. */
  lemma AllocCosts(list: seq<Region>, size: nat, align: nat)
    requires align > 0 && Alloc(list, size, align).Some?
    ensures var after := Alloc(list, size, align).value.1;
            FreeBytes(after) + size <= FreeBytes(list) <= FreeBytes(after) + size + (align - 1) + (HEADER - 1)
  {
    var i := AllocIs(list, size, align);
    var r := list[i];
    var a := Place(r, size, align).value;
    PlaceIsNearEnd(r, size, align);
    hide Alloc, Place;
    var left := Leftover(r, a);
    FreeBytesSplit(list[..i], left, list[i + 1..]);
    FreeBytesSplit(list[..i], [r], list[i + 1..]);
    assert list == list[..i] + [r] + list[i + 1..];
    OneRegion(r);
    if left != [] { OneRegion(left[0]); }
  }
}
