/** Every run of the boot heap: what is free, what has been handed out, and what was donated. */
module EarlyRuns {
  import opened Prelude
  import opened EarlyHeap
  import Arithmetic
  import Arenas

  /** A block handed out, with the alignment asked for. */
  datatype Block = Block(at: Region, align: nat)

  datatype State = State(free: seq<Region>, live: seq<Block>, donated: seq<Region>)

  predicate Apart(a: Region, b: Region) {
    End(a) <= b.start || End(b) <= a.start
  }

  predicate ApartFromAll(r: Region, list: seq<Region>) {
    forall i | 0 <= i < |list| :: Apart(r, list[i])
  }

  /** Big enough and aligned for a header, and not in low memory. */
  predicate WellSized(r: Region) {
    r.size >= HEADER && r.start % HEADER_ALIGN == 0 && r.start >= LOW_MEM_THRESHOLD
  }

  predicate Descending(list: seq<Region>) {
    forall i, j | 0 <= i < j < |list| :: End(list[j]) <= list[i].start
  }

  /** The list of free regions: highest first, disjoint, well sized. */
  predicate FreeList(list: seq<Region>) {
    Descending(list) && forall i | 0 <= i < |list| :: WellSized(list[i])
  }

  predicate Within(r: Region, outer: Region) {
    outer.start <= r.start && End(r) <= End(outer)
  }

  predicate Donated(r: Region, donated: seq<Region>) {
    exists k | 0 <= k < |donated| :: Within(r, donated[k])
  }

  ghost predicate IsPowerOfTwo(n: nat) {
    exists e: nat :: n == Arithmetic.Pow2(e)
  }

  predicate BlockInv(s: State, b: Block) {
    && b.at.size >= 1 && b.at.start >= LOW_MEM_THRESHOLD
    && b.align > 0 && b.at.start % b.align == 0 && b.at.start % HEADER_ALIGN == 0
    && ApartFromAll(b.at, s.free)
    && Donated(b.at, s.donated)
  }

  predicate Inv(s: State) {
    && FreeList(s.free)
    && (forall i | 0 <= i < |s.free| :: Donated(s.free[i], s.donated))
    && (forall i | 0 <= i < |s.live| :: BlockInv(s, s.live[i]))
    && (forall i, j | 0 <= i < j < |s.live| :: Apart(s.live[i].at, s.live[j].at))
  }

  // ---- Steps

  datatype Step = Add(start: nat, size: nat) | Take(bytes: nat, align: nat) | Give(index: nat)

  function Without(live: seq<Block>, k: nat): seq<Block>
    requires k < |live|
  {
    live[..k] + live[k + 1..]
  }

  /**
   Only memory that is neither free nor live may be donated; a layout's alignment is a power of two; only a live block
   may be handed back.
   */
  ghost predicate Enabled(s: State, step: Step) {
    match step
    case Add(start, size) =>
      && ApartFromAll(Region(start, size), s.free)
      && forall i | 0 <= i < |s.live| :: Apart(Region(start, size), s.live[i].at)
    case Take(bytes, align) => IsPowerOfTwo(align)
    case Give(k) => k < |s.live|
  }

  function Apply(s: State, step: Step): State {
    match step
    case Give(k) =>
      if k >= |s.live| then s
      else State(AddRegion(s.free, s.live[k].at.start, s.live[k].at.size), Without(s.live, k), s.donated)
    case Add(start, size) =>
      State(AddRegion(s.free, start, size), s.live, s.donated + [Region(start, size)])
    case Take(bytes, align) =>
      match Alloc(s.free, Rounded(bytes), Raised(align))
      case None => s
      case Some((a, free)) => State(free, s.live + [Block(Region(a, Rounded(bytes)), align)], s.donated)
  }

  // ---- Donating

  lemma TrimInside(start: nat, size: nat)
    requires Trim(start, size).Some?
    ensures WellSized(Trim(start, size).value) && Within(Trim(start, size).value, Region(start, size))
  {
  }

  /** Where `insert_node` puts a region: after exactly those that are higher. */
  lemma {:induction false} InsertBelowIs(list: seq<Region>, r: Region) returns (i: nat)
    ensures i <= |list| && InsertBelow(list, r) == list[..i] + [r] + list[i..]
    ensures forall j | 0 <= j < i :: list[j].start > r.start
    ensures i < |list| ==> list[i].start <= r.start
    decreases |list|
  {
    if list == [] || list[0].start <= r.start {
      i := 0;
      assert list[..0] + [r] + list[0..] == [r] + list;
    } else {
      var k := InsertBelowIs(list[1..], r);
      i := k + 1;
      assert [list[0]] + (list[1..][..k] + [r] + list[1..][k..]) == list[..i] + [r] + list[i..];
    }
  }

  lemma InsertIndex(list: seq<Region>, r: Region) returns (i: nat)
    ensures i <= |list| && Insert(list, r) == list[..i] + [r] + list[i..]
    ensures forall j | 0 <= j < i :: list[j].start >= r.start
    ensures i < |list| ==> list[i].start <= r.start
  {
    if list == [] || r.start > list[0].start {
      i := 0;
      assert list[..0] + [r] + list[0..] == [r] + list;
    } else {
      var k := InsertBelowIs(list[1..], r);
      i := k + 1;
      assert [list[0]] + (list[1..][..k] + [r] + list[1..][k..]) == list[..i] + [r] + list[i..];
      assert forall j | 1 <= j < |list| :: list[j] == list[1..][j - 1];
    }
  }

  lemma InsertIs(list: seq<Region>, r: Region) returns (i: nat)
    requires FreeList(list) && WellSized(r) && ApartFromAll(r, list)
    ensures i <= |list| && Insert(list, r) == list[..i] + [r] + list[i..]
    ensures forall j | 0 <= j < i :: End(r) <= list[j].start
    ensures forall j | i <= j < |list| :: End(list[j]) <= r.start
  {
    i := InsertIndex(list, r);
    forall j | 0 <= j < |list| ensures if j < i then End(r) <= list[j].start else End(list[j]) <= r.start {
      assert Apart(r, list[j]) && WellSized(list[j]);
      assert i < j ==> End(list[j]) <= list[i].start;
    }
  }

  /** A stretch of the list replaced by at most one region, between its neighbours. */
  lemma SpliceKeeps(list: seq<Region>, i: nat, mid: seq<Region>, j: nat)
    requires i <= j <= |list| && |mid| <= 1 && FreeList(list)
    requires forall m | m in mid :: WellSized(m)
    requires forall m, k | m in mid && 0 <= k < i :: End(m) <= list[k].start
    requires forall m, k | m in mid && j <= k < |list| :: End(list[k]) <= m.start
    ensures FreeList(list[..i] + mid + list[j..])
    ensures forall r | r in list[..i] + mid + list[j..] :: r in mid || r in list
  {
    hide WellSized, End;
    var t := list[..i] + mid + list[j..];
    forall k | 0 <= k < |t| ensures WellSized(t[k]) { SplicedEntry(list, i, mid, j, k); }
    forall k, l | 0 <= k < l < |t| ensures End(t[l]) <= t[k].start {
      SplicedEntry(list, i, mid, j, k);
      SplicedEntry(list, i, mid, j, l);
    }
  }

  lemma SplicedEntry(list: seq<Region>, i: nat, mid: seq<Region>, j: nat, k: nat)
    requires i <= j <= |list| && |mid| <= 1 && k < i + |mid| + |list| - j
    ensures var r := (list[..i] + mid + list[j..])[k];
            if k < i then r == list[k] else if k < i + |mid| then r == mid[0] && r in mid else r == list[k + j - i - |mid|]
  {
  }

  lemma InsertKeeps(list: seq<Region>, r: Region)
    requires FreeList(list) && WellSized(r) && ApartFromAll(r, list)
    ensures FreeList(Insert(list, r))
    ensures forall q | q in Insert(list, r) :: q == r || q in list
  {
    var i := InsertIs(list, r);
    hide Insert, WellSized;
    SpliceKeeps(list, i, [r], i);
  }

  lemma DonatedStays(r: Region, donated: seq<Region>, more: Region)
    requires Donated(r, donated) || Within(r, more)
    ensures Donated(r, donated + [more])
  {
    var all := donated + [more];
    if Donated(r, donated) {
      var k :| 0 <= k < |donated| && Within(r, donated[k]);
      assert Within(r, all[k]);
    } else {
      assert Within(r, all[|donated|]);
    }
  }

  lemma AddedList(list: seq<Region>, start: nat, size: nat)
    requires FreeList(list) && ApartFromAll(Region(start, size), list)
    ensures FreeList(AddRegion(list, start, size))
    ensures forall q | q in AddRegion(list, start, size) :: Within(q, Region(start, size)) || q in list
  {
    if Trim(start, size).Some? {
      var r := Trim(start, size).value;
      TrimInside(start, size);
      hide Trim, FreeList, WellSized, Insert;
      forall k | 0 <= k < |list| ensures Apart(r, list[k]) { assert Apart(Region(start, size), list[k]); }
      InsertKeeps(list, r);
    }
  }

  lemma AddInv(s: State, start: nat, size: nat)
    requires Inv(s) && Enabled(s, Add(start, size))
    ensures Inv(Apply(s, Add(start, size)))
  {
    var range := Region(start, size);
    AddedList(s.free, start, size);
    var free := AddRegion(s.free, start, size);
    var s' := State(free, s.live, s.donated + [range]);
    hide AddRegion, FreeList, Donated;
    forall k | 0 <= k < |free| ensures Donated(free[k], s'.donated) {
      assert free[k] in free;
      DonatedStays(free[k], s.donated, range);
    }
    forall i | 0 <= i < |s.live| ensures BlockInv(s', s.live[i]) {
      var b := s.live[i];
      assert BlockInv(s, b) && Apart(range, b.at);
      DonatedStays(b.at, s.donated, range);
      forall k | 0 <= k < |free| ensures Apart(b.at, free[k]) { assert free[k] in free; }
    }
  }

  /** A donation adds exactly what is kept of it. */
  lemma AddGains(list: seq<Region>, start: nat, size: nat)
    ensures FreeBytes(AddRegion(list, start, size)) ==
            FreeBytes(list) + Gain(start, size)
  {
    if Trim(start, size).Some? {
      var r := Trim(start, size).value;
      hide Trim;
      var i := InsertIndex(list, r);
      FreeBytesSplit(list[..i], [r], list[i..]);
      FreeBytesAppend(list[..i], list[i..]);
      assert list == list[..i] + list[i..];
      OneRegion(r);
    }
  }

  // ---- Allocating

  lemma {:induction false} SmallPowers(e: nat)
    ensures Arithmetic.Pow2(e) == 1 || Arithmetic.Pow2(e) == 2 || Arithmetic.Pow2(e) == 4 || Arithmetic.Pow2(e) >= 8
  {
    if e > 0 { SmallPowers(e - 1); }
  }

  /** The alignment used also gives the alignment asked for. */
  lemma RaisedSuffices(a: nat, align: nat)
    requires IsPowerOfTwo(align) && a % Raised(align) == 0
    ensures align > 0 && a % align == 0 && a % HEADER_ALIGN == 0
  {
    var e: nat :| align == Arithmetic.Pow2(e);
    SmallPowers(e);
    if e >= 3 {
      assert Arithmetic.Pow2(3) == HEADER_ALIGN;
      Arithmetic.PowAdd(3, e - 3);
      HeaderAligned(a, Arithmetic.Pow2(e - 3));
    }
  }

  lemma HeaderAligned(a: nat, p: nat)
    requires p > 0 && a % (HEADER_ALIGN * p) == 0
    ensures a % HEADER_ALIGN == 0
  {
    var q := a / (HEADER_ALIGN * p);
    assert a == HEADER_ALIGN * (p * q);
    Arithmetic.DivUnique(HEADER_ALIGN, p * q, 0, a);
  }

  lemma LeftoverBelow(r: Region, a: nat)
    requires WellSized(r) && r.start <= a <= End(r)
    ensures |Leftover(r, a)| <= 1
    ensures forall m | m in Leftover(r, a) :: WellSized(m) && Within(m, r) && End(m) == a
  {
  }

  /** Part of some region of the list. */
  predicate PartOf(r: Region, list: seq<Region>) {
    exists k | 0 <= k < |list| :: Within(r, list[k])
  }

  lemma PartApart(r: Region, q: Region, list: seq<Region>)
    requires PartOf(q, list) && ApartFromAll(r, list)
    ensures Apart(r, q)
  {
    var k :| 0 <= k < |list| && Within(q, list[k]);
    assert Apart(r, list[k]);
  }

  lemma PartIsHigh(r: Region, list: seq<Region>)
    requires FreeList(list) && PartOf(r, list)
    ensures r.start >= LOW_MEM_THRESHOLD
  {
    var k :| 0 <= k < |list| && Within(r, list[k]);
    assert WellSized(list[k]);
  }

  lemma PartDonated(r: Region, list: seq<Region>, donated: seq<Region>)
    requires PartOf(r, list) && forall k | 0 <= k < |list| :: Donated(list[k], donated)
    ensures Donated(r, donated)
  {
    var k :| 0 <= k < |list| && Within(r, list[k]);
    var d :| 0 <= d < |donated| && Within(list[k], donated[d]);
    assert Within(r, donated[d]);
  }

  /** What is left of the list: every region part of an old one and clear of the block. */
  lemma RestClear(list: seq<Region>, i: nat, block: Region, mid: seq<Region>, r: Region)
    requires Descending(list) && i < |list| && Within(block, list[i]) && r in list[..i] + mid + list[i + 1..]
    requires forall m | m in mid :: Within(m, list[i]) && End(m) <= block.start
    ensures Apart(block, r) && PartOf(r, list)
  {
    if r in mid {
      assert Within(r, list[i]);
    } else if k :| 0 <= k < i && list[..i][k] == r {
      assert Within(r, list[k]);
    } else {
      var k :| 0 <= k < |list[i + 1..]| && list[i + 1..][k] == r;
      assert Within(r, list[i + 1 + k]);
    }
  }

  /** The list after an allocation is still a free list. */
  lemma TakeKeeps(list: seq<Region>, size: nat, align: nat, i: nat)
    requires FreeList(list) && size > 0 && align > 0 && TakenFrom(list, size, align, i)
    requires Fits(list[i], Alloc(list, size, align).value.0, size, align)
    ensures var (a, free) := Alloc(list, size, align).value;
            && FreeList(free)
            && PartOf(Region(a, size), list)
            && forall k | 0 <= k < |free| :: Apart(Region(a, size), free[k]) && PartOf(free[k], list)
  {
    var (a, free) := Alloc(list, size, align).value;
    LeftoverBelow(list[i], a);
    var mid := Leftover(list[i], a);
    assert free == list[..i] + mid + list[i + 1..];
    assert Within(Region(a, size), list[i]);
    SpliceKeeps(list, i, mid, i + 1);
    hide Alloc, Place, Leftover, WellSized, Within, Apart;
    forall k | 0 <= k < |free| ensures Apart(Region(a, size), free[k]) && PartOf(free[k], list) {
      RestClear(list, i, Region(a, size), mid, free[k]);
    }
  }

  lemma TakenInv(s: State, a: nat, free: seq<Region>, size: nat, align: nat)
    requires Inv(s) && size >= 1 && align > 0 && a % align == 0 && a % HEADER_ALIGN == 0
    requires a >= LOW_MEM_THRESHOLD && FreeList(free) && PartOf(Region(a, size), s.free)
    requires forall k | 0 <= k < |free| :: Apart(Region(a, size), free[k]) && PartOf(free[k], s.free)
    ensures Inv(State(free, s.live + [Block(Region(a, size), align)], s.donated))
  {
    hide FreeList, PartOf, Donated, Apart;
    var b := Block(Region(a, size), align);
    var s' := State(free, s.live + [b], s.donated);
    PartDonated(b.at, s.free, s.donated);
    forall k | 0 <= k < |free| ensures Donated(free[k], s.donated) { PartDonated(free[k], s.free, s.donated); }
    forall j | 0 <= j < |s.live| ensures BlockInv(s', s.live[j]) && Apart(s.live[j].at, b.at) {
      assert BlockInv(s, s.live[j]);
      PartApart(s.live[j].at, b.at, s.free);
      forall k | 0 <= k < |free| ensures Apart(s.live[j].at, free[k]) { PartApart(s.live[j].at, free[k], s.free); }
    }
  }

  lemma TakeInv(s: State, bytes: nat, align: nat)
    requires Inv(s) && Enabled(s, Take(bytes, align))
    ensures Inv(Apply(s, Take(bytes, align)))
  {
    hide Alloc, NoRoom, FreeList, PartOf, Apart;
    var size, raised := Rounded(bytes), Raised(align);
    var i := AllocFirstFit(s.free, size, raised);
    if Alloc(s.free, size, raised).Some? {
      TakeKeeps(s.free, size, raised, i);
      var (a, free) := Alloc(s.free, size, raised).value;
      RaisedSuffices(a, align);
      PartIsHigh(Region(a, size), s.free);
      TakenInv(s, a, free, size, align);
    }
  }

  // ---- Handing back

  lemma WithoutAt(live: seq<Block>, k: nat, i: nat)
    requires k < |live| && i < |live| - 1
    ensures Without(live, k)[i] == live[if i < k then i else i + 1]
  {
  }

  lemma WithoutInv(s: State, k: nat)
    requires Inv(s) && k < |s.live|
    ensures Inv(s.(live := Without(s.live, k)))
    ensures forall i | 0 <= i < |s.live| - 1 :: Apart(s.live[k].at, Without(s.live, k)[i].at)
  {
    var r := s.(live := Without(s.live, k));
    forall i | 0 <= i < |r.live| ensures BlockInv(r, r.live[i]) && Apart(s.live[k].at, r.live[i].at) {
      WithoutAt(s.live, k, i);
      assert BlockInv(s, s.live[if i < k then i else i + 1]);
    }
    forall i, j | 0 <= i < j < |r.live| ensures Apart(r.live[i].at, r.live[j].at) {
      WithoutAt(s.live, k, i);
      WithoutAt(s.live, k, j);
    }
  }

  /** Memory that was inside a donation needs no second entry. */
  lemma DonatedOnce(s: State, r: Region)
    requires Inv(s.(donated := s.donated + [r])) && Donated(r, s.donated)
    ensures Inv(s)
  {
    var s' := s.(donated := s.donated + [r]);
    forall q | Donated(q, s'.donated) ensures Donated(q, s.donated) {
      var k :| 0 <= k < |s'.donated| && Within(q, s'.donated[k]);
      var d :| 0 <= d < |s.donated| && Within(r, s.donated[d]);
      assert k == |s.donated| ==> Within(q, s.donated[d]);
      assert k < |s.donated| ==> Within(q, s.donated[k]);
    }
    hide Donated, FreeList, Apart;
    forall i | 0 <= i < |s.live| ensures BlockInv(s, s.live[i]) { assert BlockInv(s', s.live[i]); }
  }

  /** A live block handed back is free memory again, and nothing else changes hands. */
  lemma GiveInv(s: State, k: nat)
    requires Inv(s) && Enabled(s, Give(k))
    ensures Inv(Apply(s, Give(k)))
  {
    var b := s.live[k].at;
    assert BlockInv(s, s.live[k]);
    WithoutInv(s, k);
    var rest := s.(live := Without(s.live, k));
    hide AddRegion, Without, FreeList;
    AddInv(rest, b.start, b.size);
    DonatedOnce(Apply(s, Give(k)), b);
  }

  // ---- Runs

  ghost predicate Run(s: State, steps: seq<Step>)
    decreases |steps|
  {
    steps == [] || (Enabled(s, steps[0]) && Run(Apply(s, steps[0]), steps[1..]))
  }

  function Final(s: State, steps: seq<Step>): State
    decreases |steps|
  {
    if steps == [] then s else Final(Apply(s, steps[0]), steps[1..])
  }

  const EMPTY: State := State([], [], [])

  lemma StepKeepsInv(s: State, step: Step)
    requires Inv(s) && Enabled(s, step)
    ensures Inv(Apply(s, step))
  {
    match step
    case Add(start, size) => AddInv(s, start, size);
    case Take(bytes, align) => TakeInv(s, bytes, align);
    case Give(k) => GiveInv(s, k);
  }

  /** Every run from the empty heap keeps the invariant. */
  lemma {:induction false} RunKeepsInv(s: State, steps: seq<Step>)
    requires Inv(s) && Run(s, steps)
    ensures Inv(Final(s, steps))
    decreases |steps|
  {
    if steps != [] {
      StepKeepsInv(s, steps[0]);
      RunKeepsInv(Apply(s, steps[0]), steps[1..]);
    }
  }

  /**
   In every reachable state the blocks handed out are aligned as asked, inside donated memory, disjoint from one
   another and from everything still free.
   */
  lemma LiveBlocksAreSafe(steps: seq<Step>, i: nat)
    requires Run(EMPTY, steps) && i < |Final(EMPTY, steps).live|
    ensures var s := Final(EMPTY, steps);
            var b := s.live[i];
            && b.align > 0 && b.at.start % b.align == 0
            && Donated(b.at, s.donated)
            && (forall j | 0 <= j < |s.live| && j != i :: Apart(b.at, s.live[j].at))
            && (forall k | 0 <= k < |s.free| :: Apart(b.at, s.free[k]))
  {
    RunKeepsInv(EMPTY, steps);
    var s := Final(EMPTY, steps);
    hide Run, Final;
    assert BlockInv(s, s.live[i]);
  }

  // ---- From the memory map

  /** What `init_from_map` donates: the usable arenas, in order. */
  function Donations(arenas: seq<Arenas.Arena>): seq<Step>
    requires Arenas.Tidy(arenas)
  {
    if arenas == [] then []
    else
      var rest := Donations(arenas[1..]);
      if arenas[0].kind == Arenas.Usable then [Donation(arenas[0])] + rest else rest
  }

  function Donation(a: Arenas.Arena): Step
    requires a.start <= a.end
  {
    Add(a.start, a.end - a.start)
  }

  /** Everything ever donated is part of a usable arena. */
  predicate FromMap(donated: seq<Region>, arenas: seq<Arenas.Arena>) {
    forall d | d in donated :: exists a | a in arenas :: a.kind == Arenas.Usable && a.start <= d.start && End(d) <= a.end
  }

  /** A heap that has only been given memory, all of it below the arenas still to come. */
  predicate Filling(s: State, arenas: seq<Arenas.Arena>) {
    Inv(s) && s.live == [] && Arenas.Tidy(arenas) && (arenas != [] ==> forall r | r in s.free :: End(r) <= arenas[0].start)
  }

  /** The heap after the first arena. */
  function Filled(s: State, arenas: seq<Arenas.Arena>): State
    requires Arenas.Tidy(arenas) && arenas != []
  {
    if arenas[0].kind == Arenas.Usable then Apply(s, Donation(arenas[0])) else s
  }

  lemma FillOne(s: State, arenas: seq<Arenas.Arena>)
    requires Filling(s, arenas) && arenas != []
    ensures Filling(Filled(s, arenas), arenas[1..])
    ensures arenas[0].kind == Arenas.Usable ==> Enabled(s, Donation(arenas[0]))
    ensures Final(s, Donations(arenas)) == Final(Filled(s, arenas), Donations(arenas[1..]))
  {
    FinalFilled(s, arenas);
    hide Final, Donations, Inv, Enabled, Apply;
    assert |arenas| > 1 ==> arenas[0].end <= arenas[1].start;
    if arenas[0].kind == Arenas.Usable { DonateOne(s, arenas[0]); }
  }

  lemma DonateOne(s: State, a: Arenas.Arena)
    requires Inv(s) && s.live == [] && a.start < a.end && forall r | r in s.free :: End(r) <= a.start
    ensures Enabled(s, Donation(a))
    ensures var r := Apply(s, Donation(a));
            Inv(r) && r.live == [] && forall q | q in r.free :: End(q) <= a.end
  {
    var range := Region(a.start, a.end - a.start);
    forall i | 0 <= i < |s.free| ensures Apart(range, s.free[i]) { assert s.free[i] in s.free; }
    AddInv(s, range.start, range.size);
    AddedList(s.free, range.start, range.size);
    hide Inv, AddRegion;
  }

  lemma FinalFilled(s: State, arenas: seq<Arenas.Arena>)
    requires Arenas.Tidy(arenas) && arenas != []
    ensures Final(s, Donations(arenas)) == Final(Filled(s, arenas), Donations(arenas[1..]))
  {
    var rest := Donations(arenas[1..]);
    if arenas[0].kind == Arenas.Usable { assert ([Donation(arenas[0])] + rest)[1..] == rest; }
    hide Apply;
  }

  /** Donating a tidy map to an empty heap is a run, and all it donates is usable. */
  lemma {:induction false} DonationsRun(s: State, arenas: seq<Arenas.Arena>, whole: seq<Arenas.Arena>)
    requires Filling(s, arenas) && FromMap(s.donated, whole) && forall a | a in arenas :: a in whole
    ensures Run(s, Donations(arenas))
    ensures var r := Final(s, Donations(arenas));
            Inv(r) && r.live == [] && FromMap(r.donated, whole)
    decreases |arenas|
  {
    if arenas != [] {
      FillOne(s, arenas);
      var a, s1 := arenas[0], Filled(s, arenas);
      assert a in whole;
      hide Inv, Enabled, AddRegion;
      DonationsRun(s1, arenas[1..], whole);
      if a.kind == Arenas.Usable {
        var rest := Donations(arenas[1..]);
        assert ([Donation(a)] + rest)[1..] == rest;
      }
    }
  }

  lemma AddHolds(list: seq<Region>, start: nat, size: nat, q: Region)
    ensures q in AddRegion(list, start, size) <==> q in list || Trim(start, size) == Some(q)
  {
    if Trim(start, size).Some? {
      hide Trim;
      var r := Trim(start, size).value;
      var i := InsertIndex(list, r);
      assert list == list[..i] + list[i..];
      assert q in list[..i] + [r] + list[i..] <==> q in list[..i] || q == r || q in list[i..];
    }
  }

  /** A region of the free list that holds r. */
  predicate Free(r: Region, list: seq<Region>) {
    exists q | q in list :: Within(r, q)
  }

  lemma DonationIs(s: State, a: Arenas.Arena)
    requires a.start <= a.end
    ensures Apply(s, Donation(a)).free == AddRegion(s.free, a.start, a.end - a.start)
  {
    hide AddRegion;
  }

  lemma FreeStays(list: seq<Region>, start: nat, size: nat, r: Region)
    requires Free(r, list)
    ensures Free(r, AddRegion(list, start, size))
  {
    hide AddRegion, Within;
    var q :| q in list && Within(r, q);
    AddHolds(list, start, size, q);
  }

  lemma SuitsFrees(list: seq<Region>, start: nat, size: nat, r: Region)
    requires Suits(r, start, size)
    ensures Free(r, AddRegion(list, start, size))
  {
    hide AddRegion, Suits, Trim;
    TrimKeepsMost(start, size);
    AddHolds(list, start, size, Trim(start, size).value);
  }

  lemma DonationFrees(s: State, a: Arenas.Arena, r: Region)
    requires a.start <= a.end && (Free(r, s.free) || Suits(r, a.start, a.end - a.start))
    ensures Free(r, Apply(s, Donation(a)).free)
  {
    hide *;
    DonationIs(s, a);
    if Free(r, s.free) {
      FreeStays(s.free, a.start, a.end - a.start, r);
    } else {
      SuitsFrees(s.free, a.start, a.end - a.start, r);
    }
  }

  /** After the donations every region of a usable arena that the heap could use is free. */
  lemma {:induction false} DonationsFree(s: State, arenas: seq<Arenas.Arena>, r: Region)
    requires Arenas.Tidy(arenas)
    requires || Free(r, s.free)
             || exists a | a in arenas :: a.kind == Arenas.Usable && a.start <= a.end && Suits(r, a.start, a.end - a.start)
    ensures Free(r, Final(s, Donations(arenas)).free)
    decreases |arenas|
  {
    if arenas != [] {
      var a := arenas[0];
      FinalFilled(s, arenas);
      if a.kind == Arenas.Usable && (Free(r, s.free) || Suits(r, a.start, a.end - a.start)) { DonationFrees(s, a, r); }
      hide Free, Suits, Final, Donations, Apply;
      if !Free(r, s.free) {
        var b :| b in arenas && b.kind == Arenas.Usable && b.start <= b.end && Suits(r, b.start, b.end - b.start);
        assert b == a || b in arenas[1..];
      }
      DonationsFree(Filled(s, arenas), arenas[1..], r);
    }
  }

  // ---- How much that is

  /** The bytes of a usable arena above the first 64 KiB. */
  function HighBytes(a: Arenas.Arena): nat {
    if a.kind != Arenas.Usable || a.end < a.start then 0 else Above(a.start, a.end - a.start)
  }

  function UsableBytes(arenas: seq<Arenas.Arena>): nat {
    if arenas == [] then 0 else HighBytes(arenas[0]) + UsableBytes(arenas[1..])
  }

  /** Whole pages, or at least aligned and not too small. */
  predicate Roomy(a: Arenas.Arena) {
    a.start % 8 == 0 && (HighBytes(a) == 0 || HighBytes(a) >= 16)
  }

  lemma FilledGains(s: State, arenas: seq<Arenas.Arena>)
    requires Arenas.Tidy(arenas) && arenas != []
    ensures var gained := FreeBytes(Filled(s, arenas).free) - FreeBytes(s.free);
            && gained <= HighBytes(arenas[0]) <= gained + 23
            && (Roomy(arenas[0]) ==> gained == HighBytes(arenas[0]))
  {
    var a := arenas[0];
    AddGains(s.free, a.start, a.end - a.start);
    TrimGains(a.start, a.end - a.start);
    hide FreeBytes, AddRegion, Trim, Above;
  }

  /** What is free after the donations is what the arenas hold above 64 KiB, but for less than 24 bytes an arena. */
  lemma {:induction false} DonationsGain(s: State, arenas: seq<Arenas.Arena>)
    requires Arenas.Tidy(arenas)
    ensures var gained := FreeBytes(Final(s, Donations(arenas)).free) - FreeBytes(s.free);
            && gained <= UsableBytes(arenas) <= gained + 23 * |arenas|
            && ((forall a | a in arenas :: Roomy(a)) ==> gained == UsableBytes(arenas))
    decreases |arenas|
  {
    if arenas != [] {
      UsableUnrolls(arenas);
      assert forall b | b in arenas[1..] :: b in arenas;
      hide *;
      FinalFilled(s, arenas);
      FilledGains(s, arenas);
      TidyRest(arenas);
      DonationsGain(Filled(s, arenas), arenas[1..]);
    }
  }

  lemma TidyRest(arenas: seq<Arenas.Arena>)
    requires Arenas.Tidy(arenas) && arenas != []
    ensures Arenas.Tidy(arenas[1..])
  {
  }

  lemma UsableUnrolls(arenas: seq<Arenas.Arena>)
    requires arenas != []
    ensures UsableBytes(arenas) == HighBytes(arenas[0]) + UsableBytes(arenas[1..])
  {
  }

  lemma {:induction false} TakesDonateNothing(s: State, steps: seq<Step>)
    requires forall step | step in steps :: !step.Add?
    ensures Final(s, steps).donated == s.donated
    decreases |steps|
  {
    if steps != [] { TakesDonateNothing(Apply(s, steps[0]), steps[1..]); }
  }

  /** After the map has been donated, whatever is taken and handed back, the heap is sound and all of it usable. */
  lemma AfterBoot(arenas: seq<Arenas.Arena>, steps: seq<Step>)
    requires Arenas.Tidy(arenas)
    requires Run(Final(EMPTY, Donations(arenas)), steps) && forall step | step in steps :: !step.Add?
    ensures Run(EMPTY, Donations(arenas))
    ensures var s := Final(Final(EMPTY, Donations(arenas)), steps);
            Inv(s) && FromMap(s.donated, arenas)
  {
    DonationsRun(EMPTY, arenas, arenas);
    var boot := Final(EMPTY, Donations(arenas));
    hide Inv, Run;
    RunKeepsInv(boot, steps);
    TakesDonateNothing(boot, steps);
  }

  // ---- Bytes

  function LiveBytes(live: seq<Block>): nat {
    if live == [] then 0 else LiveBytes(live[..|live| - 1]) + live[|live| - 1].at.size
  }

  /** The most a step can lose: padding and a header around a block handed out, or a block too small to hand back. */
  function StepSlack(s: State, step: Step): nat {
    match step
    case Add(_, _) => 0
    case Take(bytes, align) =>
      if Alloc(s.free, Rounded(bytes), Raised(align)).Some? then Raised(align) + HEADER else 0
    case Give(k) => if k < |s.live| && s.live[k].at.size < HEADER then HEADER else 0
  }

  function Slack(s: State, steps: seq<Step>): nat
    decreases |steps|
  {
    if steps == [] then 0 else StepSlack(s, steps[0]) + Slack(Apply(s, steps[0]), steps[1..])
  }

  function KeptBy(step: Step): nat {
    match step
    case Add(start, size) => Gain(start, size)
    case _ => 0
  }

  /** What is kept of all donations. */
  function Kept(steps: seq<Step>): nat {
    if steps == [] then 0 else KeptBy(steps[0]) + Kept(steps[1..])
  }

  function Bytes(s: State): nat {
    FreeBytes(s.free) + LiveBytes(s.live)
  }

  lemma {:induction false} LiveAppend(a: seq<Block>, b: seq<Block>)
    ensures LiveBytes(a + b) == LiveBytes(a) + LiveBytes(b)
    decreases |b|
  {
    if b == [] {
      assert a + b == a;
    } else {
      LiveAppend(a, b[..|b| - 1]);
      assert (a + b)[..|a + b| - 1] == a + b[..|b| - 1];
    }
  }

  lemma OneBlock(b: Block)
    ensures LiveBytes([b]) == b.at.size
  {
    assert [b][..0] == [];
  }

  /** A block handed back whole is free again byte for byte, unless it cannot hold a header. */
  lemma GiveConserves(s: State, k: nat)
    requires Inv(s) && k < |s.live|
    ensures var r, size := Apply(s, Give(k)), s.live[k].at.size;
            Bytes(r) == if size < HEADER then Bytes(s) - size else Bytes(s)
  {
    var b := s.live[k];
    assert BlockInv(s, b);
    hide Inv;
    AddGains(s.free, b.at.start, b.at.size);
    TrimWhole(b.at);
    hide AddRegion, Trim;
    LiveWithout(s.live, k);
  }

  lemma LiveWithout(live: seq<Block>, k: nat)
    requires k < |live|
    ensures LiveBytes(live) == LiveBytes(Without(live, k)) + live[k].at.size
  {
    hide LiveBytes;
    var a, b, c := live[..k], live[k], live[k + 1..];
    assert live == a + [b] + c;
    LiveAppend(a, c);
    LiveAppend(a, [b]);
    LiveAppend(a + [b], c);
    OneBlock(b);
  }

  lemma TrimWhole(r: Region)
    requires r.start >= LOW_MEM_THRESHOLD && r.start % HEADER_ALIGN == 0
    ensures Trim(r.start, r.size) == if r.size < HEADER then None else Some(r)
  {
    Arithmetic.MultiplesApart(HEADER_ALIGN, Arithmetic.AlignUp(r.start, HEADER_ALIGN), r.start);
  }

  /** One step gives and takes what it says, up to its slack. */
  lemma StepConserves(s: State, step: Step)
    requires Inv(s) && Enabled(s, step)
    ensures Bytes(Apply(s, step)) <= Bytes(s) + KeptBy(step) <= Bytes(Apply(s, step)) + StepSlack(s, step)
  {
    match step
    case Add(start, size) => AddGains(s.free, start, size);
    case Take(bytes, align) =>
      var found := Alloc(s.free, Rounded(bytes), Raised(align));
      if found.Some? {
        AllocCosts(s.free, Rounded(bytes), Raised(align));
        var b := Block(Region(found.value.0, Rounded(bytes)), align);
        LiveAppend(s.live, [b]);
        OneBlock(b);
      }
    case Give(k) => GiveConserves(s, k);
  }

  /** Over any run no byte is invented, and none is lost beyond the slack of its steps. */
  lemma {:induction false} RunConserves(s: State, steps: seq<Step>)
    requires Inv(s) && Run(s, steps)
    ensures Bytes(Final(s, steps)) <= Bytes(s) + Kept(steps) <= Bytes(Final(s, steps)) + Slack(s, steps)
    decreases |steps|
  {
    if steps != [] {
      StepConserves(s, steps[0]);
      StepKeepsInv(s, steps[0]);
      hide Apply, Bytes, Inv, StepSlack;
      RunConserves(Apply(s, steps[0]), steps[1..]);
    }
  }
}
