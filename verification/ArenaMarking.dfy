/** Marking parts of the memory map: `ArenaMarker::mark_unchecked` of bootloader/src/memory.rs. */
module ArenaMarking {
  import opened Prelude
  import opened Arenas

  /** `push_and_merge`. */
  function Push(out: seq<Arena>, a: Arena): (r: seq<Arena>)
    ensures r != []
  {
    if out != [] && out[|out| - 1].end == a.start && out[|out| - 1].kind == a.kind
    then out[|out| - 1 := out[|out| - 1].(end := a.end)]
    else out + [a]
  }

  /** An arena split around a marker inside it. */
  function Split(out: seq<Arena>, current: Arena, marker: Arena): (r: seq<Arena>)
    ensures r != []
  {
    var head := Arena(current.start, marker.start, current.kind);
    var before := if current.start < marker.start then Push(out, head) else out;
    var marked := Push(before, marker);
    if current.end > marker.end then Push(marked, Arena(marker.end, current.end, current.kind)) else marked
  }

  predicate Inside(marker: Arena, a: Arena) {
    a.start <= marker.start && marker.end <= a.end
  }

  predicate InsideOne(marker: Arena, arenas: seq<Arena>) {
    exists i | 0 <= i < |arenas| :: Inside(marker, arenas[i])
  }

  /** The kind an address should have: the marker's where one covers it, else the map's. */
  function Overlay(arenas: seq<Arena>, markers: seq<Arena>, x: nat): Option<Kind> {
    if KindAt(markers, x).Some? then KindAt(markers, x) else KindAt(arenas, x)
  }

  ghost predicate Means(out: seq<Arena>, arenas: seq<Arena>, markers: seq<Arena>) {
    forall x: nat :: KindAt(out, x) == Overlay(arenas, markers, x)
  }

  /** The map is sorted, disjoint and fully merged, and ends by `end`. */
  predicate Built(out: seq<Arena>, end: nat) {
    Tidy(out) && Merged(out) && (out != [] ==> out[|out| - 1].end <= end)
  }

  lemma PushBuilds(out: seq<Arena>, a: Arena)
    requires Built(out, a.start) && a.start < a.end
    ensures var r := Push(out, a);
            Built(r, a.end) && r[|r| - 1].end == a.end && r[|r| - 1].start <= a.start
  {
    var r := Push(out, a);
    assert Tidy(r);
    assert Merged(r);
  }

  /** `a` laid over what `below` says. */
  function Over(a: Arena, below: Option<Kind>, x: nat): Option<Kind> {
    if In(a, x) then Some(a.kind) else below
  }

  lemma PushMeans(out: seq<Arena>, a: Arena, x: nat)
    requires Built(out, a.start) && a.start < a.end
    ensures KindAt(Push(out, a), x) == Over(a, KindAt(out, x), x)
  {
    KindAtAppend(out, a, x);
    if Push(out, a) != out + [a] { assert Push(out, a)[..|out| - 1] == out[..|out| - 1]; }
  }

  lemma SplitBuilds(out: seq<Arena>, current: Arena, marker: Arena)
    requires Built(out, current.start) && Inside(marker, current) && marker.start < marker.end
    ensures var r := Split(out, current, marker);
            Built(r, current.end) && r[|r| - 1].end == current.end && r[|r| - 1].start <= marker.end
  {
    hide Tidy, Merged, Push;
    var head, tail := Arena(current.start, marker.start, current.kind), Arena(marker.end, current.end, current.kind);
    if current.start < marker.start { PushBuilds(out, head); }
    var before := if current.start < marker.start then Push(out, head) else out;
    PushBuilds(before, marker);
    if current.end > marker.end { PushBuilds(Push(before, marker), tail); }
  }

  lemma SplitMeans(out: seq<Arena>, current: Arena, marker: Arena, x: nat)
    requires Built(out, current.start) && Inside(marker, current) && marker.start < marker.end
    ensures KindAt(Split(out, current, marker), x) == Over(marker, Over(current, KindAt(out, x), x), x)
  {
    hide Tidy, Merged, Push;
    var head, tail := Arena(current.start, marker.start, current.kind), Arena(marker.end, current.end, current.kind);
    if current.start < marker.start {
      PushBuilds(out, head);
      PushMeans(out, head, x);
    }
    var before := if current.start < marker.start then Push(out, head) else out;
    PushBuilds(before, marker);
    PushMeans(before, marker, x);
    if current.end > marker.end { PushMeans(Push(before, marker), tail, x); }
  }

  /** What holds while arena i is being split: everything before it done, `current` its unmarked rest on top. */
  ghost predicate Splitting(arenas: seq<Arena>, markers: seq<Arena>, i: nat, c: nat, out: seq<Arena>, current: Arena) {
    && i < |arenas| && c <= |markers|
    && Built(out, current.start) && current.start < current.end == arenas[i].end
    && (current.start == arenas[i].start
        || (c > 0 && markers[c - 1].start >= arenas[i].start && current.start <= markers[c - 1].end))
    && (forall m | 0 <= m < c :: InsideOne(markers[m], arenas[..i + 1]))
    && (c < |markers| ==> !InsideOne(markers[c], arenas[..i]))
    && Means(out + [current], arenas[..i + 1], markers[..c])
  }

  /** What holds between arenas. */
  ghost predicate Marking(arenas: seq<Arena>, markers: seq<Arena>, i: nat, c: nat, out: seq<Arena>) {
    && i <= |arenas| && c <= |markers|
    && Built(out, if i == 0 then 0 else arenas[i - 1].end)
    && (forall m | 0 <= m < c :: InsideOne(markers[m], arenas[..i]))
    && (c < |markers| ==> !InsideOne(markers[c], arenas[..i]))
    && Means(out, arenas[..i], markers[..c])
  }

  lemma NextArena(arenas: seq<Arena>, markers: seq<Arena>, i: nat, c: nat, out: seq<Arena>)
    requires Tidy(arenas) && i < |arenas| && Marking(arenas, markers, i, c, out)
    ensures Splitting(arenas, markers, i, c, out, arenas[i])
  {
    assert arenas[..i + 1] == arenas[..i] + [arenas[i]];
    forall m | 0 <= m < c ensures InsideOne(markers[m], arenas[..i + 1]) {
      assert InsideOne(markers[m], arenas[..i]);
      var k :| 0 <= k < i && Inside(markers[m], arenas[..i][k]);
      assert Inside(markers[m], arenas[..i + 1][k]);
    }
    forall x: nat ensures KindAt(out + [arenas[i]], x) == Overlay(arenas[..i + 1], markers[..c], x) {
      KindAtAppend(out, arenas[i], x);
      KindAtAppend(arenas[..i], arenas[i], x);
      if In(arenas[i], x) { MarkersBehind(arenas, markers, i, c, x); }
    }
  }

  /** A marker inside an earlier arena covers nothing of this one. */
  lemma MarkersBehind(arenas: seq<Arena>, markers: seq<Arena>, i: nat, c: nat, x: nat)
    requires Tidy(arenas) && i < |arenas| && c <= |markers| && In(arenas[i], x)
    requires forall m | 0 <= m < c :: InsideOne(markers[m], arenas[..i])
    ensures KindAt(markers[..c], x) == None
  {
    forall m | 0 <= m < c ensures !In(markers[..c][m], x) {
      assert InsideOne(markers[m], arenas[..i]);
      var k :| 0 <= k < i && Inside(markers[m], arenas[..i][k]);
      assert arenas[k].end <= arenas[i].start;
    }
    KindAtNone(markers[..c], x);
  }

  /** The test in the inner loop is whether the marker lies inside the arena at hand. */
  lemma TestIsInside(arenas: seq<Arena>, markers: seq<Arena>, i: nat, c: nat, out: seq<Arena>, current: Arena)
    requires Tidy(markers) && Splitting(arenas, markers, i, c, out, current) && c < |markers|
    ensures Inside(markers[c], current) <==> Inside(markers[c], arenas[i])
  {
    if c > 0 { assert markers[c - 1].end <= markers[c].start; }
  }

  lemma PoppedBuilt(r: seq<Arena>, end: nat)
    requires r != [] && Built(r, end)
    ensures Built(r[..|r| - 1], r[|r| - 1].start) && r[|r| - 1].start < r[|r| - 1].end
  {
  }

  /** A marker after one in this arena is inside no earlier arena. */
  lemma MarkerAhead(arenas: seq<Arena>, i: nat, marker: Arena)
    requires Tidy(arenas) && i < |arenas| && arenas[i].start <= marker.start < marker.end
    ensures !InsideOne(marker, arenas[..i])
  {
    forall k | 0 <= k < i ensures !Inside(marker, arenas[k]) { assert arenas[k].end <= arenas[i].start; }
  }

  lemma SplitOnceMeans(arenas: seq<Arena>, markers: seq<Arena>, i: nat, c: nat, out: seq<Arena>, current: Arena)
    requires Tidy(markers) && Splitting(arenas, markers, i, c, out, current)
    requires c < |markers| && Inside(markers[c], current)
    ensures Means(Split(out, current, markers[c]), arenas[..i + 1], markers[..c + 1])
  {
    var r := Split(out, current, markers[c]);
    assert markers[..c + 1] == markers[..c] + [markers[c]];
    forall x: nat ensures KindAt(r, x) == Overlay(arenas[..i + 1], markers[..c + 1], x) {
      SplitMeans(out, current, markers[c], x);
      hide Split, KindAt, Built;
      KindAtAppend(out, current, x);
      KindAtAppend(markers[..c], markers[c], x);
      assert KindAt(out + [current], x) == Overlay(arenas[..i + 1], markers[..c], x);
    }
  }

  lemma SplitOnce(arenas: seq<Arena>, markers: seq<Arena>, i: nat, c: nat, out: seq<Arena>, current: Arena)
    requires Tidy(arenas) && Tidy(markers) && Splitting(arenas, markers, i, c, out, current)
    requires c < |markers| && Inside(markers[c], current)
    ensures var r := Split(out, current, markers[c]);
            Splitting(arenas, markers, i, c + 1, r[..|r| - 1], r[|r| - 1])
  {
    hide Split, Built, Means;
    TestIsInside(arenas, markers, i, c, out, current);
    SplitBuilds(out, current, markers[c]);
    SplitOnceMeans(arenas, markers, i, c, out, current);
    var r := Split(out, current, markers[c]);
    PoppedBuilt(r, current.end);
    assert Inside(markers[c], arenas[..i + 1][i]);
    if c + 1 < |markers| { NextMarkerAhead(arenas, markers, i, c); }
    hide Tidy, InsideOne;
    assert r == r[..|r| - 1] + [r[|r| - 1]];
  }

  lemma NextMarkerAhead(arenas: seq<Arena>, markers: seq<Arena>, i: nat, c: nat)
    requires Tidy(arenas) && Tidy(markers) && i < |arenas| && c + 1 < |markers| && Inside(markers[c], arenas[i])
    ensures !InsideOne(markers[c + 1], arenas[..i])
  {
    assert markers[c].end <= markers[c + 1].start;
    MarkerAhead(arenas, i, markers[c + 1]);
  }

  lemma InsideOneAppend(marker: Arena, arenas: seq<Arena>, a: Arena)
    ensures InsideOne(marker, arenas + [a]) <==> InsideOne(marker, arenas) || Inside(marker, a)
  {
    var s := arenas + [a];
    assert forall i | 0 <= i < |arenas| :: s[i] == arenas[i];
    assert s[|arenas|] == a;
  }

  lemma ArenaDone(arenas: seq<Arena>, markers: seq<Arena>, i: nat, c: nat, out: seq<Arena>, current: Arena)
    requires Tidy(arenas) && Tidy(markers) && Splitting(arenas, markers, i, c, out, current)
    requires c < |markers| ==> !Inside(markers[c], current)
    ensures Marking(arenas, markers, i + 1, c, Push(out, current))
  {
    PushBuilds(out, current);
    if c < |markers| {
      TestIsInside(arenas, markers, i, c, out, current);
      assert arenas[..i + 1] == arenas[..i] + [arenas[i]];
      InsideOneAppend(markers[c], arenas[..i], arenas[i]);
    }
    forall x: nat ensures KindAt(Push(out, current), x) == Overlay(arenas[..i + 1], markers[..c], x) {
      PushMeans(out, current, x);
      hide Push, KindAt;
      KindAtAppend(out, current, x);
      assert KindAt(out + [current], x) == Overlay(arenas[..i + 1], markers[..c], x);
    }
  }

  /** The map a marking should produce, or None for the assertion that not all markers were used. */
  ghost predicate Marked(arenas: seq<Arena>, markers: seq<Arena>, r: Option<seq<Arena>>) {
    && (r.Some? <==> forall m | 0 <= m < |markers| :: InsideOne(markers[m], arenas))
    && (r.Some? ==> Tidy(r.value) && Merged(r.value) && Means(r.value, arenas, markers))
  }

  lemma NothingDone(arenas: seq<Arena>, markers: seq<Arena>)
    ensures Marking(arenas, markers, 0, 0, [])
  {
  }

  lemma AllDone(arenas: seq<Arena>, markers: seq<Arena>, c: nat, out: seq<Arena>)
    requires Marking(arenas, markers, |arenas|, c, out)
    ensures Marked(arenas, markers, if c == |markers| then Some(out) else None)
  {
    assert arenas[..|arenas|] == arenas && markers[..|markers|] == markers;
  }

  /**
   `mark_unchecked`; None when the final assertion fires. On a sorted, disjoint map of non-empty arenas and
   markers it fires exactly when some marker is inside no single arena. Otherwise the new map is sorted, disjoint
   and fully merged, and says of every address what the markers say, and elsewhere what the old map said.
   */
  method MarkUnchecked(arenas: seq<Arena>, markers: seq<Arena>) returns (r: Option<seq<Arena>>)
    ensures Tidy(arenas) && Tidy(markers) ==> Marked(arenas, markers, r)
  {
    hide Marking, Splitting, Push, Marked, Tidy;
    ghost var tidy := Tidy(arenas) && Tidy(markers);
    var out: seq<Arena> := [];
    var c := 0;
    if tidy { NothingDone(arenas, markers); }
    for i := 0 to |arenas|
      invariant c <= |markers|
      invariant tidy ==> Marking(arenas, markers, i, c, out)
    {
      var current := arenas[i];
      if tidy { NextArena(arenas, markers, i, c, out); }
      while c < |markers| && Inside(markers[c], current)
        invariant c <= |markers|
        invariant tidy ==> Splitting(arenas, markers, i, c, out, current)
      {
        if tidy { SplitOnce(arenas, markers, i, c, out, current); }
        var marker := markers[c];
        if current.start < marker.start { out := Push(out, Arena(current.start, marker.start, current.kind)); }
        out := Push(out, marker);
        if current.end > marker.end { out := Push(out, Arena(marker.end, current.end, current.kind)); }
        current, out := out[|out| - 1], out[..|out| - 1];
        c := c + 1;
      }
      if tidy { ArenaDone(arenas, markers, i, c, out, current); }
      out := Push(out, current);
    }
    if tidy { AllDone(arenas, markers, c, out); }
    if c != |markers| { return None; }
    return Some(out);
  }

  /** A marker across the border of two usable arenas is inside neither, though the map covers all of it. */
  lemma MarkerAcrossArenas()
    ensures var arenas := [Arena(0, 0x2000, Usable), Arena(0x2000, 0x4000, Usable)];
            var marker := Arena(0x1000, 0x3000, KernelStack);
            && Tidy(arenas) && Tidy([marker])
            && !InsideOne(marker, arenas)
            && forall x | In(marker, x) :: KindAt(arenas, x) == Some(Usable)
  {
    var arenas := [Arena(0, 0x2000, Usable), Arena(0x2000, 0x4000, Usable)];
    forall x: nat | 0x1000 <= x < 0x3000 ensures KindAt(arenas, x) == Some(Usable) {
      KindAtIs(arenas, if x < 0x2000 then 0 else 1, x);
    }
  }
}
