/**
 The memory map from what the firmware reports to what the kernel reads: `mark` and `construct_memory_map` of
 bootloader/src/memory.rs.
 */
module MapConstruction {
  import opened Prelude
  import opened Arithmetic
  import opened Arenas
  import opened ArenaMarking
  import opened MapSplice

  const PAGE: nat := 4096

  // ---- Sorting

  /** An arena in its place by start address, after those that start where it does. */
  function Place(arenas: seq<Arena>, a: Arena): seq<Arena> {
    if arenas == [] || arenas[|arenas| - 1].start <= a.start then arenas + [a]
    else Place(arenas[..|arenas| - 1], a) + [arenas[|arenas| - 1]]
  }

  /** The stable sort by start address. */
  function Sorted(arenas: seq<Arena>): seq<Arena> {
    if arenas == [] then [] else Place(Sorted(arenas[..|arenas| - 1]), arenas[|arenas| - 1])
  }

  predicate Clear(a: Arena, b: Arena) {
    a.end <= b.start || b.end <= a.start
  }

  /** Non-empty arenas that do not overlap, in any order. */
  predicate Scattered(arenas: seq<Arena>) {
    && (forall i | 0 <= i < |arenas| :: arenas[i].start < arenas[i].end)
    && (forall i, j | 0 <= i < j < |arenas| :: Clear(arenas[i], arenas[j]))
  }

  lemma {:induction false} PlaceIsTidy(arenas: seq<Arena>, a: Arena)
    requires Tidy(arenas) && a.start < a.end && forall i | 0 <= i < |arenas| :: Clear(arenas[i], a)
    ensures Tidy(Place(arenas, a)) && forall b :: b in Place(arenas, a) <==> b == a || b in arenas
    decreases |arenas|
  {
    if arenas != [] && arenas[|arenas| - 1].start > a.start {
      var n := |arenas| - 1;
      PlaceIsTidy(arenas[..n], a);
      var before := Place(arenas[..n], a);
      assert arenas == arenas[..n] + [arenas[n]];
      forall i | 0 <= i < |before| ensures before[i].end <= arenas[n].start {
        assert before[i] in before;
      }
      assert Tidy(before + [arenas[n]]);
    }
  }

  /** Sorting makes a scattered map tidy and keeps exactly its arenas. */
  lemma {:induction false} SortedIsTidy(arenas: seq<Arena>)
    requires Scattered(arenas)
    ensures Tidy(Sorted(arenas)) && forall b :: b in Sorted(arenas) <==> b in arenas
    decreases |arenas|
  {
    if arenas != [] {
      var n := |arenas| - 1;
      SortedIsTidy(arenas[..n]);
      var before := Sorted(arenas[..n]);
      assert arenas == arenas[..n] + [arenas[n]];
      forall i | 0 <= i < |before| ensures Clear(before[i], arenas[n]) {
        assert before[i] in arenas[..n];
        var j :| 0 <= j < n && arenas[j] == before[i];
      }
      PlaceIsTidy(before, arenas[n]);
    }
  }

  /** In a scattered map too the kind of an address is that of the one arena that holds it. */
  lemma {:induction false} ScatteredKind(arenas: seq<Arena>, i: nat, x: nat)
    requires Scattered(arenas) && i < |arenas| && In(arenas[i], x)
    ensures KindAt(arenas, x) == Some(arenas[i].kind)
    decreases |arenas|
  {
    var n := |arenas| - 1;
    if i < n {
      assert Clear(arenas[i], arenas[n]);
      ScatteredKind(arenas[..n], i, x);
    }
  }

  /** Sorting does not change what the map says. */
  lemma SortedMeans(arenas: seq<Arena>, x: nat)
    requires Scattered(arenas)
    ensures KindAt(Sorted(arenas), x) == KindAt(arenas, x)
  {
    SortedIsTidy(arenas);
    var sorted := Sorted(arenas);
    if KindAt(arenas, x).Some? {
      var i := Holder(arenas, x);
      assert arenas[i] in sorted;
      var j :| 0 <= j < |sorted| && sorted[j] == arenas[i];
      KindAtIs(sorted, j, x);
    } else if KindAt(sorted, x).Some? {
      var j := Holder(sorted, x);
      assert sorted[j] in arenas;
      var i :| 0 <= i < |arenas| && arenas[i] == sorted[j];
      ScatteredKind(arenas, i, x);
    }
  }

  lemma InsideSorted(marker: Arena, arenas: seq<Arena>)
    requires Scattered(arenas)
    ensures InsideOne(marker, Sorted(arenas)) <==> InsideOne(marker, arenas)
  {
    SortedIsTidy(arenas);
    var sorted := Sorted(arenas);
    if InsideOne(marker, arenas) {
      var i :| 0 <= i < |arenas| && Inside(marker, arenas[i]);
      assert arenas[i] in sorted;
    }
    if InsideOne(marker, sorted) {
      var i :| 0 <= i < |sorted| && Inside(marker, sorted[i]);
      assert sorted[i] in arenas;
    }
  }

  /** Every marker lies inside one arena. */
  predicate AllInside(markers: seq<Arena>, arenas: seq<Arena>) {
    forall m | 0 <= m < |markers| :: InsideOne(markers[m], arenas)
  }

  lemma InsideInAnyOrder(arenas: seq<Arena>, markers: seq<Arena>)
    requires Scattered(arenas) && Scattered(markers)
    ensures AllInside(Sorted(markers), Sorted(arenas)) <==> AllInside(markers, arenas)
  {
    SortedIsTidy(markers);
    forall m: Arena ensures InsideOne(m, Sorted(arenas)) <==> InsideOne(m, arenas) { InsideSorted(m, arenas); }
    hide InsideOne, Scattered, Tidy;
    var sorted := Sorted(markers);
    hide Sorted;
    if AllInside(sorted, Sorted(arenas)) {
      forall m | 0 <= m < |markers| ensures InsideOne(markers[m], arenas) {
        assert markers[m] in sorted;
        var k :| 0 <= k < |sorted| && sorted[k] == markers[m];
      }
    }
    if AllInside(markers, arenas) {
      forall k | 0 <= k < |sorted| ensures InsideOne(sorted[k], Sorted(arenas)) {
        assert sorted[k] in markers;
        var m :| 0 <= m < |markers| && markers[m] == sorted[k];
      }
    }
  }

  lemma MarkedInAnyOrder(arenas: seq<Arena>, markers: seq<Arena>, r: Option<seq<Arena>>)
    requires Scattered(arenas) && Scattered(markers) && Marked(Sorted(arenas), Sorted(markers), r)
    ensures Marked(arenas, markers, r)
  {
    InsideInAnyOrder(arenas, markers);
    assert r.Some? <==> AllInside(markers, arenas);
    if r.Some? {
      forall x: nat ensures KindAt(r.value, x) == Overlay(arenas, markers, x) {
        SortedMeans(arenas, x);
        SortedMeans(markers, x);
        assert KindAt(r.value, x) == Overlay(Sorted(arenas), Sorted(markers), x);
      }
    }
  }

  /** `mark`: the map and the markers in any order. */
  method Mark(arenas: seq<Arena>, markers: seq<Arena>) returns (r: Option<seq<Arena>>)
    ensures Scattered(arenas) && Scattered(markers) ==> Marked(arenas, markers, r)
  {
    hide Sorted, Marked;
    r := MarkUnchecked(Sorted(arenas), Sorted(markers));
    if Scattered(arenas) && Scattered(markers) {
      SortedIsTidy(arenas);
      SortedIsTidy(markers);
      MarkedInAnyOrder(arenas, markers, r);
    }
  }

  // ---- Pages of one kind are in one arena

  ghost predicate AllOf(m: seq<Arena>, a: Arena, k: Kind) {
    forall x: nat | In(a, x) :: KindAt(m, x) == Some(k)
  }

  /** Two arenas of one kind in a fully merged map do not touch. */
  lemma GapBetween(m: seq<Arena>, i: nat, j: nat)
    requires Tidy(m) && Merged(m) && i < j < |m| && m[i].kind == m[j].kind
    ensures m[i].end < m[j].start
  {
    if j > i + 1 { assert m[i].end <= m[i + 1].start < m[i + 1].end <= m[j].start; }
  }

  /** In a fully merged map a stretch of one kind cannot cross from one arena to the next. */
  lemma {:induction false} OneKindOneArena(m: seq<Arena>, a: Arena, k: Kind) returns (i: nat)
    requires Tidy(m) && Merged(m) && a.start < a.end && AllOf(m, a, k)
    ensures i < |m| && Inside(a, m[i]) && m[i].kind == k
    decreases a.end
  {
    var last := a.end - 1;
    assert KindAt(m, last) == Some(k);
    if a.end == a.start + 1 {
      i := Holder(m, last);
    } else {
      i := OneKindOneArena(m, a.(end := last), k);
      var j := Holder(m, last);
      if i < j { GapBetween(m, i, j); }
    }
  }

  /** The pages lie inside one arena of a merged map exactly when they are all of one kind. */
  lemma InsideIffOneKind(m: seq<Arena>, a: Arena)
    requires Tidy(m) && Merged(m) && a.start < a.end
    ensures InsideOne(a, m) <==> exists k :: AllOf(m, a, k)
  {
    if InsideOne(a, m) {
      var i :| 0 <= i < |m| && Inside(a, m[i]);
      forall x: nat | In(a, x) ensures KindAt(m, x) == Some(m[i].kind) { KindAtIs(m, i, x); }
      assert AllOf(m, a, m[i].kind);
    }
    if k :| AllOf(m, a, k) { var i := OneKindOneArena(m, a, k); }
  }

  // ---- The whole construction

  /** The marked map gives all of `a` one kind. */
  ghost predicate Uniform(arenas: seq<Arena>, markers: seq<Arena>, a: Arena) {
    exists k :: UniformlyOf(arenas, markers, a, k)
  }

  ghost predicate UniformlyOf(arenas: seq<Arena>, markers: seq<Arena>, a: Arena, k: Kind) {
    forall x: nat | In(a, x) :: Overlay(arenas, markers, x) == Some(k)
  }

  /** What the kernel should read of every address, if the array lies in `self`. */
  ghost predicate Says(seen: seq<Arena>, arenas: seq<Arena>, markers: seq<Arena>, self: Arena) {
    forall x: nat :: KindAt(seen, x) ==
      if Uniform(arenas, markers, self) then Over(self, Overlay(arenas, markers, x), x) else Overlay(arenas, markers, x)
  }

  /** No end-of-map entry arises from marking. */
  lemma MarkedUnended(arenas: seq<Arena>, markers: seq<Arena>, marked: seq<Arena>)
    requires Unended(arenas) && Unended(markers) && Tidy(marked) && Means(marked, arenas, markers)
    ensures Unended(marked)
  {
    forall i | 0 <= i < |marked| ensures marked[i].kind != EndOfMemoryMap {
      var x := marked[i].start;
      KindAtIs(marked, i, x);
      assert KindAt(marked, x) == Overlay(arenas, markers, x);
      if KindAt(markers, x).Some? { var j := Holder(markers, x); } else { var j := Holder(arenas, x); }
    }
  }

  lemma UniformIsInside(arenas: seq<Arena>, markers: seq<Arena>, marked: seq<Arena>, self: Arena)
    requires Tidy(marked) && Merged(marked) && Means(marked, arenas, markers) && self.start < self.end
    ensures InsideOne(self, marked) <==> Uniform(arenas, markers, self)
  {
    InsideIffOneKind(marked, self);
    hide InsideOne, KindAt, Overlay;
    forall k ensures AllOf(marked, self, k) <==> UniformlyOf(arenas, markers, self, k) {
      assert forall x: nat :: KindAt(marked, x) == Overlay(arenas, markers, x);
    }
  }

  lemma KernelSees(arenas: seq<Arena>, markers: seq<Arena>, marked: seq<Arena>, self: Arena, n: nat)
    requires Unended(arenas) && Unended(markers) && self.start < self.end && self.kind != EndOfMemoryMap
    requires Tidy(marked) && Merged(marked) && Means(marked, arenas, markers)
    ensures var seen := Yield(Spliced(marked, self) + Dummies(n));
            Tidy(seen) && Says(seen, arenas, markers, self)
  {
    MarkedUnended(arenas, markers, marked);
    KernelReads(marked, self, n);
    UniformIsInside(arenas, markers, marked, self);
    SplicedMeans(marked, self, 0);
    hide Yield, Spliced, Uniform, Tidy, InsideOne;
    forall x: nat
      ensures KindAt(Spliced(marked, self), x) ==
              if Uniform(arenas, markers, self) then Over(self, Overlay(arenas, markers, x), x)
              else Overlay(arenas, markers, x)
    {
      SplicedMeans(marked, self, x);
      assert KindAt(marked, x) == Overlay(arenas, markers, x);
    }
  }

  /** The array of so many entries at `ptr`, to the end of its last page. */
  function OwnPages(ptr: nat, entries: nat, entryBytes: nat): Arena {
    Arena(ptr, AlignUp(ptr + entries * entryBytes, PAGE), BootloaderProvideInfo)
  }

  /** What the firmware and the bootloader provide: scattered arenas and markers, none an end of map. */
  predicate Proper(arenas: seq<Arena>, markers: seq<Arena>) {
    Scattered(arenas) && Scattered(markers) && Unended(arenas) && Unended(markers)
  }

  /**
   `construct_memory_map`, with the array of the new map at `ptr`; None when the assertion in `mark` fires, which is
   exactly when some marker is inside no single arena. Otherwise the kernel reads a sorted, disjoint map that says of
   every address what the markers say and elsewhere what the firmware said, but for the array's own pages: these are
   marked exactly when they are all of one kind.
   */
  method ConstructMemoryMap(arenas: seq<Arena>, markers: seq<Arena>, ptr: nat, entryBytes: nat)
    returns (r: Option<array<Arena>>)
    requires entryBytes > 0 && ptr < USIZE_MAX
    ensures Proper(arenas, markers) ==>
              && (r.Some? <==> AllInside(markers, arenas))
              && (r.Some? ==>
                    && Tidy(Yield(r.value[..]))
                    && Says(Yield(r.value[..]), arenas, markers, OwnPages(ptr, r.value.Length, entryBytes)))
  {
    hide Marked, Says, Spliced, Yield, OwnPages, Scattered, Unended;
    var marked := Mark(arenas, markers);
    if Proper(arenas, markers) { MarkedGives(arenas, markers, marked); }
    if marked.None? { return None; }
    OwnPagesAre(ptr, |marked.value| + 2, entryBytes);
    var self := OwnPages(ptr, |marked.value| + 2, entryBytes);
    var a := SpliceOwnPages(marked.value, self);
    if Proper(arenas, markers) {
      KernelSees(arenas, markers, marked.value, self, |marked.value| + 2 - |Spliced(marked.value, self)|);
    }
    return Some(a);
  }

  /** The array's own pages start with it and end with the page that holds its last byte. */
  lemma OwnPagesAre(ptr: nat, entries: nat, entryBytes: nat)
    requires entries > 0 && entryBytes > 0
    ensures var self := OwnPages(ptr, entries, entryBytes);
            && self.start == ptr < self.end && self.kind == BootloaderProvideInfo
            && self.end - PAGE < ptr + entries * entryBytes <= self.end && self.end % PAGE == 0
  {
    hide AlignUp;
  }

  lemma MarkedGives(arenas: seq<Arena>, markers: seq<Arena>, r: Option<seq<Arena>>)
    requires Marked(arenas, markers, r)
    ensures r.Some? <==> AllInside(markers, arenas)
    ensures r.Some? ==> Tidy(r.value) && Merged(r.value) && Means(r.value, arenas, markers)
  {
  }
}
