/**
 The memory map marks its own pages: the splice loop of `construct_memory_map` in bootloader/src/memory.rs, and
 the iterator the kernel reads the result with, in bootloader/protocol/src/memory.rs.
 */
module MapSplice {
  import opened Prelude
  import opened Arenas
  import opened ArenaMarking

  const USIZE_MAX: nat := 0xFFFF_FFFF_FFFF_FFFF

  const DUMMY: Arena := Arena(USIZE_MAX, USIZE_MAX, EndOfMemoryMap)

  // ---- What the kernel reads

  /** The arenas before the first end-of-map entry. */
  function Yield(arenas: seq<Arena>): seq<Arena> {
    if arenas == [] || arenas[0].kind == EndOfMemoryMap then [] else [arenas[0]] + Yield(arenas[1..])
  }

  class MemoryMapIter {
    const arenas: seq<Arena>
    var index: nat

    constructor (arenas: seq<Arena>)
      ensures this.arenas == arenas && index == 0 && Left() == Yield(arenas)
    {
      this.arenas := arenas;
      index := 0;
    }

    /** What is still to come. */
    ghost function Left(): seq<Arena>
      reads this
    {
      if index <= |arenas| then Yield(arenas[index..]) else []
    }

    method Next() returns (r: Option<Arena>)
      modifies this
      ensures r.Some? ==> old(Left()) == [r.value] + Left()
      ensures r.None? ==> old(Left()) == Left() == []
    {
      if index >= |arenas| || arenas[index].kind == EndOfMemoryMap { return None; }
      r := Some(arenas[index]);
      assert arenas[index..][1..] == arenas[index + 1..];
      index := index + 1;
    }
  }

  // ---- What the splice should do

  /** One arena in up to three pieces. */
  function Pieces(a: Arena, self: Arena): (p: seq<Arena>)
    ensures 1 <= |p| <= 3
  {
    (if a.start < self.start then [Arena(a.start, self.start, a.kind)] else [])
    + [self]
    + (if a.end > self.end then [Arena(self.end, a.end, a.kind)] else [])
  }

  /** The first arena that holds the pages gives way to its pieces. */
  function Spliced(arenas: seq<Arena>, self: Arena): seq<Arena> {
    if arenas == [] then []
    else if Inside(self, arenas[0]) then Pieces(arenas[0], self) + arenas[1..]
    else [arenas[0]] + Spliced(arenas[1..], self)
  }

  function Dummies(n: nat): (d: seq<Arena>)
    ensures |d| == n && forall i | 0 <= i < n :: d[i] == DUMMY
  {
    seq(n, _ => DUMMY)
  }

  lemma {:induction false} SplicedAt(arenas: seq<Arena>, self: Arena, i: nat)
    requires i < |arenas| && Inside(self, arenas[i])
    requires forall j | 0 <= j < i :: !Inside(self, arenas[j])
    ensures Spliced(arenas, self) == arenas[..i] + Pieces(arenas[i], self) + arenas[i + 1..]
    decreases i
  {
    if i == 0 {
      assert Spliced(arenas, self) == [] + Pieces(arenas[0], self) + arenas[1..];
      assert arenas[..0] == [];
    } else {
      SplicedAt(arenas[1..], self, i - 1);
      assert arenas[1..][..i - 1] == arenas[1..i];
      assert arenas[1..][i..] == arenas[i + 1..];
      assert [arenas[0]] + arenas[1..i] == arenas[..i];
    }
  }

  lemma {:induction false} SplicedNowhere(arenas: seq<Arena>, self: Arena)
    requires !InsideOne(self, arenas)
    ensures Spliced(arenas, self) == arenas
    decreases |arenas|
  {
    if arenas != [] {
      assert !Inside(self, arenas[0]);
      assert forall i | 0 <= i < |arenas[1..]| :: arenas[1..][i] == arenas[i + 1];
      SplicedNowhere(arenas[1..], self);
    }
  }

  // ---- The loop

  function Rotated(s: seq<Arena>, from: nat, k: nat): seq<Arena>
    requires from <= |s| && k <= |s| - from
  {
    s[..from] + (s[|s| - k..] + s[from..|s| - k])
  }

  /** `rotate_right(k)` on the part of an array from `from` on. */
  method RotateRight(a: array<Arena>, from: nat, k: nat)
    requires from <= a.Length && k <= a.Length - from
    modifies a
    ensures a[..] == Rotated(old(a[..]), from, k)
  {
    ghost var was := a[..];
    var t := a[a.Length - k..] + a[from..a.Length - k];
    Overwrite(a, from, t);
    assert was[from + |t|..] == [];
    assert t == was[|was| - k..] + was[from..|was| - k];
  }

  /** Entry i in pieces, and as many entries dropped from the end. */
  function SplicedInto(s: seq<Arena>, i: nat, self: Arena): seq<Arena>
    requires i + 3 <= |s|
  {
    var pieces := Pieces(s[i], self);
    s[..i] + pieces + s[i + 1..|s| + 1 - |pieces|]
  }

  function Overwritten(s: seq<Arena>, from: nat, part: seq<Arena>): seq<Arena>
    requires from + |part| <= |s|
  {
    s[..from] + part + s[from + |part|..]
  }

  /** Rotating the last entries in behind the arena and overwriting them puts the pieces in its place. */
  lemma RotationMakesRoom(s: seq<Arena>, i: nat, self: Arena)
    requires i + 3 <= |s|
    ensures var pieces := Pieces(s[i], self);
            Overwritten(Rotated(s[i := pieces[0]], i + 1, |pieces| - 1), i + 1, pieces[1..]) == SplicedInto(s, i, self)
  {
    hide Pieces;
    var pieces := Pieces(s[i], self);
    var t, k := s[i := pieces[0]], |pieces| - 1;
    var r := Rotated(t, i + 1, k);
    assert r[..i + 1] == s[..i] + [pieces[0]];
    assert r[i + 1 + k..] == t[i + 1..|s| - k] == s[i + 1..|s| - k];
    assert pieces == [pieces[0]] + pieces[1..];
  }

  method Overwrite(a: array<Arena>, from: nat, s: seq<Arena>)
    requires from + |s| <= a.Length
    modifies a
    ensures a[..] == Overwritten(old(a[..]), from, s)
  {
    for j := 0 to |s|
      invariant a[..from] == old(a[..from])
      invariant forall l | 0 <= l < j :: a[from + l] == s[l]
      invariant a[from + |s|..] == old(a[from + |s|..])
    {
      a[from + j] := s[j];
    }
    assert a[from..from + |s|] == s;
    assert a[..] == a[..from] + a[from..from + |s|] + a[from + |s|..];
  }

  /** What is left of the loop body once the arena is found: the last entries pay for the new pieces. */
  method SpliceAt(a: array<Arena>, i: nat, self: Arena)
    requires i + 3 <= a.Length
    modifies a
    ensures a[..] == SplicedInto(old(a[..]), i, self)
  {
    hide Pieces, Rotated, Overwritten, SplicedInto;
    ghost var was := a[..];
    var pieces := Pieces(a[i], self);
    a[i] := pieces[0];
    assert a[..] == was[i := pieces[0]];
    RotateRight(a, i + 1, |pieces| - 1);
    Overwrite(a, i + 1, pieces[1..]);
    RotationMakesRoom(was, i, self);
  }

  /** `construct_memory_map` from the marked map on; `self` is where the array lies, in whole pages. */
  method SpliceOwnPages(marked: seq<Arena>, self: Arena) returns (a: array<Arena>)
    requires self.start < self.end && self.start < USIZE_MAX
    ensures fresh(a) && a.Length == |marked| + 2
    ensures |Spliced(marked, self)| <= |marked| + 2
    ensures a[..] == Spliced(marked, self) + Dummies(|marked| + 2 - |Spliced(marked, self)|)
  {
    var all := marked + [DUMMY, DUMMY];
    a := new Arena[|all|](i requires 0 <= i < |all| => all[i]);
    assert a[..] == all;
    var i := 0;
    while i < a.Length
      invariant i <= a.Length && a[..] == all
      invariant forall j | 0 <= j < i :: !Inside(self, all[j])
    {
      if Inside(self, a[i]) {
        SpliceAt(a, i, self);
        assert forall j | 0 <= j < i :: marked[j] == all[j];
        SplicedFits(marked, self, i);
        return;
      }
      i := i + 1;
    }
    assert forall j | 0 <= j < |marked| :: all[j] == marked[j];
    SplicedNowhere(marked, self);
    assert [DUMMY, DUMMY] == Dummies(2);
  }

  /** The entries dropped are dummies, and none of the map's own. */
  lemma SplicedFits(marked: seq<Arena>, self: Arena, i: nat)
    requires i < |marked| && Inside(self, marked[i])
    requires forall j | 0 <= j < i :: !Inside(self, marked[j])
    ensures |Spliced(marked, self)| <= |marked| + 2
    ensures SplicedInto(marked + [DUMMY, DUMMY], i, self) ==
            Spliced(marked, self) + Dummies(|marked| + 2 - |Spliced(marked, self)|)
  {
    SplicedAt(marked, self, i);
    hide Spliced, Pieces;
    var all := marked + [DUMMY, DUMMY];
    var pieces := Pieces(marked[i], self);
    var n := |all| + 1 - |pieces|;
    assert all[..i] == marked[..i] && all[i] == marked[i];
    assert all[i + 1..n] == marked[i + 1..] + Dummies(3 - |pieces|);
  }

  // ---- What it means

  /** No entry is an end-of-map entry. */
  predicate Unended(arenas: seq<Arena>) {
    forall i | 0 <= i < |arenas| :: arenas[i].kind != EndOfMemoryMap
  }

  lemma {:induction false} YieldStopsAtDummies(arenas: seq<Arena>, n: nat)
    requires Unended(arenas)
    ensures Yield(arenas + Dummies(n)) == arenas
    decreases |arenas|
  {
    if arenas == [] {
      assert arenas + Dummies(n) == Dummies(n);
    } else {
      YieldStopsAtDummies(arenas[1..], n);
      assert (arenas + Dummies(n))[1..] == arenas[1..] + Dummies(n);
    }
  }

  lemma {:induction false} SplicedUnended(arenas: seq<Arena>, self: Arena)
    requires Unended(arenas) && self.kind != EndOfMemoryMap
    ensures Unended(Spliced(arenas, self))
    decreases |arenas|
  {
    if arenas != [] && !Inside(self, arenas[0]) { SplicedUnended(arenas[1..], self); }
  }

  /** The kernel reads the old arenas with the one that held the array replaced by its pieces. */
  lemma KernelReads(marked: seq<Arena>, self: Arena, n: nat)
    requires Unended(marked) && self.kind != EndOfMemoryMap
    ensures Yield(Spliced(marked, self) + Dummies(n)) == Spliced(marked, self)
  {
    SplicedUnended(marked, self);
    YieldStopsAtDummies(Spliced(marked, self), n);
  }

  lemma PiecesTidy(a: Arena, self: Arena)
    requires Inside(self, a) && self.start < self.end
    ensures Tidy(Pieces(a, self))
    ensures forall i | 0 <= i < |Pieces(a, self)| :: a.start <= Pieces(a, self)[i].start && Pieces(a, self)[i].end <= a.end
  {
  }

  lemma TidyReplace(arenas: seq<Arena>, i: nat, pieces: seq<Arena>)
    requires Tidy(arenas) && i < |arenas| && Tidy(pieces)
    requires forall j | 0 <= j < |pieces| :: arenas[i].start <= pieces[j].start && pieces[j].end <= arenas[i].end
    ensures Tidy(arenas[..i] + pieces + arenas[i + 1..])
  {
    var r := arenas[..i] + pieces + arenas[i + 1..];
    var n := |pieces|;
    forall j | 0 <= j < |r| ensures r[j].start < r[j].end {
      assert r[j] == if j < i then arenas[j] else if j < i + n then pieces[j - i] else arenas[j + 1 - n];
    }
    forall j, k | 0 <= j < k < |r| ensures r[j].end <= r[k].start {
      assert r[j] == if j < i then arenas[j] else if j < i + n then pieces[j - i] else arenas[j + 1 - n];
      assert r[k] == if k < i then arenas[k] else if k < i + n then pieces[k - i] else arenas[k + 1 - n];
    }
  }

  lemma {:induction false} KindAtReplace(arenas: seq<Arena>, i: nat, self: Arena, x: nat)
    requires Tidy(arenas) && i < |arenas| && Inside(self, arenas[i]) && self.start < self.end
    ensures var r := arenas[..i] + Pieces(arenas[i], self) + arenas[i + 1..];
            Tidy(r) && KindAt(r, x) == Over(self, KindAt(arenas, x), x)
  {
    var pieces := Pieces(arenas[i], self);
    PiecesTidy(arenas[i], self);
    TidyReplace(arenas, i, pieces);
    var r := arenas[..i] + pieces + arenas[i + 1..];
    if In(arenas[i], x) {
      KindAtIs(arenas, i, x);
      var p := PieceOf(arenas[i], self, x);
      assert r[i + p] == pieces[p];
      KindAtIs(r, i + p, x);
    } else if k :| 0 <= k < |arenas| && k != i && In(arenas[k], x) {
      KindAtIs(arenas, k, x);
      var k' := if k < i then k else k + |pieces| - 1;
      assert r[k'] == arenas[k];
      KindAtIs(r, k', x);
    } else {
      KindAtNone(arenas, x);
      forall j | 0 <= j < |r| ensures !In(r[j], x) {
        assert r[j] == if j < i then arenas[j] else if j < i + |pieces| then pieces[j - i] else arenas[j + 1 - |pieces|];
      }
      KindAtNone(r, x);
    }
  }

  /** The piece that holds an address of the split arena. */
  lemma PieceOf(a: Arena, self: Arena, x: nat) returns (p: nat)
    requires Inside(self, a) && self.start < self.end && In(a, x)
    ensures p < |Pieces(a, self)| && In(Pieces(a, self)[p], x)
    ensures Pieces(a, self)[p].kind == if In(self, x) then self.kind else a.kind
  {
    var first := if a.start < self.start then 1 else 0;
    p := if x < self.start then 0 else if x < self.end then first else first + 1;
  }

  /** The spliced map is still sorted and disjoint, and only the array's own pages change kind. */
  lemma SplicedMeans(arenas: seq<Arena>, self: Arena, x: nat)
    requires Tidy(arenas) && self.start < self.end
    ensures Tidy(Spliced(arenas, self))
    ensures KindAt(Spliced(arenas, self), x) ==
            if InsideOne(self, arenas) then Over(self, KindAt(arenas, x), x) else KindAt(arenas, x)
  {
    if InsideOne(self, arenas) {
      var i :| 0 <= i < |arenas| && Inside(self, arenas[i]);
      forall j | 0 <= j < i ensures !Inside(self, arenas[j]) { assert arenas[j].end <= arenas[i].start; }
      SplicedAt(arenas, self, i);
      KindAtReplace(arenas, i, self, x);
    } else {
      SplicedNowhere(arenas, self);
    }
  }
}
