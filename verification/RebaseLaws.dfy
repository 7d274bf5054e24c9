/** What applying a list of fixups does to memory as a whole, when no two of them overlap. */
module RebaseLaws {
  import opened Prelude
  import opened Uleb
  import opened Rebase

  // ---- One fixup, in numbers

  /** All the bytes there are in memory. */
  predicate Held(mem: Memory, a: nat, width: nat) {
    forall x | a <= x < a + width :: x in mem
  }

  /** A little-endian number of four bytes, and of eight. */
  function Quad(mem: Memory, a: nat): nat
    requires Held(mem, a, 4)
  {
    var b0: nat, b1: nat, b2: nat, b3: nat := mem[a], mem[a + 1], mem[a + 2], mem[a + 3];
    b0 + 0x100 * b1 + 0x1_0000 * b2 + 0x100_0000 * b3
  }

  function Long(mem: Memory, a: nat): nat
    requires Held(mem, a, 8)
  {
    Quad(mem, a) + 0x1_0000_0000 * Quad(mem, a + 4)
  }

  /** The segment exists and the slid address is in the word. */
  predicate Located(image: Image, f: Fixup) {
    f.segment < |image.segments| && image.segments[f.segment] + f.offset + image.slide < TWO_64
  }

  function Address(image: Image, f: Fixup): nat
    requires Located(image, f)
  {
    image.segments[f.segment] + f.offset + image.slide
  }

  function Extent(kind: nat): nat {
    if kind == 1 then 8 else if kind == 2 then 4 else 0
  }

  /** A byte that a fixup rewrites. */
  predicate Covers(image: Image, f: Fixup, x: nat) {
    Located(image, f) && Address(image, f) <= x < Address(image, f) + Extent(f.kind)
  }

  ghost predicate Apart(image: Image, f: Fixup, g: Fixup) {
    forall x :: !(Covers(image, f, x) && Covers(image, g, x))
  }

  ghost predicate Separate(image: Image, fixups: seq<Fixup>) {
    forall i, j | 0 <= i < j < |fixups| :: Apart(image, fixups[i], fixups[j])
  }

  /** Possible on its own: the location exists, its type is known, and a pointer stays in the word. */
  predicate Feasible(image: Image, f: Fixup, mem: Memory) {
    && Located(image, f)
    && var a := Address(image, f);
       || (f.kind == 1 && Held(mem, a, 8) && Long(mem, a) + image.slide < TWO_64)
       || (f.kind == 2 && Held(mem, a, 4))
       || f.kind == 3
  }

  /** The value at a fixup's location has slid: a pointer by the slide, a 32-bit address by it within its word. */
  predicate Rebased(image: Image, f: Fixup, mem: Memory, m: Memory) {
    Located(image, f) ==>
      var a := Address(image, f);
      && (f.kind == 1 ==> Held(mem, a, 8) && Held(m, a, 8) && Long(m, a) == Long(mem, a) + image.slide)
      && (f.kind == 2 ==> Held(mem, a, 4) && Held(m, a, 4) && Quad(m, a) == (Quad(mem, a) + image.slide) % TWO_32)
  }

  /** Every byte no fixup covers keeps its value. */
  predicate OnlyAt(image: Image, fixups: seq<Fixup>, mem: Memory, m: Memory) {
    && m.Keys == mem.Keys
    && forall x | x in mem && m[x] != mem[x] :: exists i | 0 <= i < |fixups| :: Covers(image, fixups[i], x)
  }

  lemma {:induction false} ValueUnrolls(mem: Memory, a: nat, width: nat)
    requires Held(mem, a, width) && width > 0
    ensures Held(mem, a + 1, width - 1) && Value(mem, a, width) == mem[a] + 256 * Value(mem, a + 1, width - 1)
  {
    assert Held(mem, a + 1, width - 1);
    assert Fetch(mem, a, width)[1..] == Fetch(mem, a + 1, width - 1);
  }

  lemma ValueOfFour(mem: Memory, a: nat, rest: nat)
    requires Held(mem, a, 4 + rest)
    ensures Held(mem, a, 4) && Held(mem, a + 4, rest)
    ensures Value(mem, a, 4 + rest) == Quad(mem, a) + 0x1_0000_0000 * Value(mem, a + 4, rest)
  {
    assert Held(mem, a, 4) && Held(mem, a + 4, rest);
    ValueUnrolls(mem, a, 4 + rest);
    ValueUnrolls(mem, a + 1, 3 + rest);
    ValueUnrolls(mem, a + 2, 2 + rest);
    ValueUnrolls(mem, a + 3, 1 + rest);
    hide Value;
  }

  /** Values in memory are little-endian. */
  lemma ValueIsLittle(mem: Memory, a: nat)
    ensures Held(mem, a, 4) ==> Value(mem, a, 4) == Quad(mem, a)
    ensures Held(mem, a, 8) ==> Value(mem, a, 8) == Long(mem, a)
  {
    if Held(mem, a, 4) { ValueOfFour(mem, a, 0); }
    if Held(mem, a, 8) {
      ValueOfFour(mem, a, 4);
      ValueOfFour(mem, a + 4, 0);
    }
    hide Quad;
  }

  lemma WrapsAlike(v: nat, slide: nat)
    ensures (v + slide % TWO_32) % TWO_32 == (v + slide) % TWO_32
  {
    var q := slide / TWO_32;
    assert slide == TWO_32 * q + slide % TWO_32;
    var r := (v + slide % TWO_32) % TWO_32;
    var d := (v + slide % TWO_32) / TWO_32;
    assert v + slide == TWO_32 * (d + q) + r;
    Arithmetic.DivUnique(TWO_32, d + q, r, v + slide);
  }

  /** Where a fixup lands, and why it may not. */
  lemma TargetIs(image: Image, f: Fixup)
    ensures Located(image, f) ==> Target(image, f) == Ok(Address(image, f))
    ensures !Located(image, f) ==>
              Target(image, f) == Err(if f.segment >= |image.segments| then SegmentOutOfRange
                                      else if image.segments[f.segment] + f.offset >= TWO_64 then Panic
                                      else AddressOverflow)
  {
  }

  lemma OneFixup(image: Image, f: Fixup, mem: Memory)
    ensures ApplyFixup(image, f, mem).Ok? <==> Feasible(image, f, mem)
    ensures ApplyFixup(image, f, mem).Ok? ==>
              var m := ApplyFixup(image, f, mem).value;
              && Rebased(image, f, mem, m)
              && m.Keys == mem.Keys
              && forall x | x in mem && !Covers(image, f, x) :: m[x] == mem[x]
  {
    TargetIs(image, f);
    if Located(image, f) {
      var a := Address(image, f);
      hide Target, Located, Address;
      Pow256Widths();
      ValueIsLittle(mem, a);
      if f.kind == 1 { PointerSlides(image, f, mem, a); } else if f.kind == 2 { WordSlides(image, f, mem, a); }
    }
  }

  lemma PointerSlides(image: Image, f: Fixup, mem: Memory, a: nat)
    requires Target(image, f) == Ok(a) && f.kind == 1
    ensures var r := ApplyFixup(image, f, mem);
            && (r.Ok? <==> Held(mem, a, 8) && Long(mem, a) + image.slide < TWO_64)
            && (r.Ok? ==>
                  && r.value.Keys == mem.Keys && Held(r.value, a, 8) && Long(r.value, a) == Long(mem, a) + image.slide
                  && forall x | x in mem && !(a <= x < a + 8) :: r.value[x] == mem[x])
            && (r.Err? ==> r.error == if !Held(mem, a, 8) then TargetFault else Panic)
  {
    hide Target, Long;
    ValueIsLittle(mem, a);
    Pow256Widths();
    if Held(mem, a, 8) && Value(mem, a, 8) + image.slide < TWO_64 {
      var v := Value(mem, a, 8) + image.slide;
      StoreThenRead(mem, a, v, 8);
      ValueIsLittle(Store(mem, a, ToLittle(v, 8)), a);
    }
    hide Value;
  }

  lemma WordSlides(image: Image, f: Fixup, mem: Memory, a: nat)
    requires Target(image, f) == Ok(a) && f.kind == 2
    ensures var r := ApplyFixup(image, f, mem);
            && (r.Ok? <==> Held(mem, a, 4))
            && (r.Ok? ==>
                  && r.value.Keys == mem.Keys && Held(r.value, a, 4)
                  && Quad(r.value, a) == (Quad(mem, a) + image.slide) % TWO_32
                  && forall x | x in mem && !(a <= x < a + 4) :: r.value[x] == mem[x])
            && (r.Err? ==> r.error == TargetFault)
  {
    hide Target, Quad;
    ValueIsLittle(mem, a);
    Pow256Widths();
    if Held(mem, a, 4) {
      WrapsAlike(Value(mem, a, 4), image.slide);
      var v := (Value(mem, a, 4) + image.slide % TWO_32) % TWO_32;
      StoreThenRead(mem, a, v, 4);
      ValueIsLittle(Store(mem, a, ToLittle(v, 4)), a);
    }
    hide Value;
  }

  /** Why a fixup fails: its place, then its type, then the memory there, then the sum. */
  lemma FixupFails(image: Image, f: Fixup, mem: Memory)
    requires !Feasible(image, f, mem)
    ensures ApplyFixup(image, f, mem) ==
            Err(if !Located(image, f) then
                  if f.segment >= |image.segments| then SegmentOutOfRange
                  else if image.segments[f.segment] + f.offset >= TWO_64 then Panic
                  else AddressOverflow
                else if f.kind !in {1, 2} then UnsupportedType
                else if !Held(mem, Address(image, f), Extent(f.kind)) then TargetFault
                else Panic)
  {
    TargetIs(image, f);
    if Located(image, f) {
      var a := Address(image, f);
      hide Target;
      if f.kind == 1 { PointerSlides(image, f, mem, a); } else if f.kind == 2 { WordSlides(image, f, mem, a); }
    }
  }

  lemma SameNumbers(m: Memory, r: Memory, a: nat, width: nat)
    requires m.Keys == r.Keys && forall x | x in m && a <= x < a + width :: r[x] == m[x]
    ensures Held(m, a, width) <==> Held(r, a, width)
    ensures Held(m, a, width) && width == 4 ==> Quad(m, a) == Quad(r, a)
    ensures Held(m, a, width) && width == 8 ==> Long(m, a) == Long(r, a)
  {
  }

  /** A fixup reads only the bytes it covers. */
  lemma ReadsWhatItCovers(image: Image, f: Fixup, mem: Memory, m: Memory)
    requires m.Keys == mem.Keys && forall x | x in mem && Covers(image, f, x) :: m[x] == mem[x]
    ensures Feasible(image, f, mem) <==> Feasible(image, f, m)
  {
    if Located(image, f) { SameNumbers(mem, m, Address(image, f), Extent(f.kind)); }
    hide Quad, Long;
  }

  lemma RebasedFrom(image: Image, f: Fixup, mem: Memory, m: Memory, m': Memory)
    requires m.Keys == mem.Keys && Rebased(image, f, m, m')
    requires forall x | x in mem && Covers(image, f, x) :: m[x] == mem[x]
    ensures Rebased(image, f, mem, m')
  {
    if Located(image, f) { SameNumbers(mem, m, Address(image, f), Extent(f.kind)); }
    hide Quad, Long;
  }

  lemma RebasedStays(image: Image, f: Fixup, mem: Memory, m: Memory, m': Memory)
    requires m.Keys == m'.Keys && Rebased(image, f, mem, m)
    requires forall x | x in m && Covers(image, f, x) :: m[x] == m'[x]
    ensures Rebased(image, f, mem, m')
  {
    if Located(image, f) { SameNumbers(m, m', Address(image, f), Extent(f.kind)); }
    hide Quad, Long;
  }

  /** Only what the listed fixups cover can change, whether or not they overlap. */
  lemma {:induction false} NothingElseChanges(image: Image, fixups: seq<Fixup>, mem: Memory)
    ensures OnlyAt(image, fixups, mem, ApplyAll(image, fixups, mem).0)
    decreases |fixups|
  {
    if fixups != [] {
      OneFixup(image, fixups[0], mem);
      hide ApplyFixup, Covers;
      var r := ApplyFixup(image, fixups[0], mem);
      if r.Ok? {
        NothingElseChanges(image, fixups[1..], r.value);
        var m := ApplyAll(image, fixups, mem).0;
        forall x | x in mem && m[x] != mem[x] ensures exists i | 0 <= i < |fixups| :: Covers(image, fixups[i], x) {
          if m[x] != r.value[x] {
            var i :| 0 <= i < |fixups[1..]| && Covers(image, fixups[1..][i], x);
            assert Covers(image, fixups[i + 1], x);
          } else {
            assert Covers(image, fixups[0], x);
          }
        }
      }
    }
  }

  /** Fixups that do not overlap do not see one another. */
  lemma OthersUntouched(image: Image, fixups: seq<Fixup>, mem: Memory, m: Memory)
    requires fixups != [] && Separate(image, fixups) && m.Keys == mem.Keys
    requires forall x | x in mem && !Covers(image, fixups[0], x) :: m[x] == mem[x]
    ensures forall i, x | 1 <= i < |fixups| && x in mem && Covers(image, fixups[i], x) :: m[x] == mem[x]
    ensures Separate(image, fixups[1..])
  {
    forall i, x | 1 <= i < |fixups| && x in mem && Covers(image, fixups[i], x) ensures m[x] == mem[x] {
      assert Apart(image, fixups[0], fixups[i]);
    }
    forall i, j | 0 <= i < j < |fixups[1..]| ensures Apart(image, fixups[1..][i], fixups[1..][j]) {
      assert Apart(image, fixups[i + 1], fixups[j + 1]);
    }
  }

  ghost predicate AllFeasible(image: Image, fixups: seq<Fixup>, mem: Memory) {
    forall i | 0 <= i < |fixups| :: Feasible(image, fixups[i], mem)
  }

  /** Separate fixups succeed together exactly when each would succeed alone. */
  lemma {:induction false} SucceedTogether(image: Image, fixups: seq<Fixup>, mem: Memory)
    requires Separate(image, fixups)
    ensures ApplyAll(image, fixups, mem).1.None? <==> AllFeasible(image, fixups, mem)
    decreases |fixups|
  {
    if fixups != [] {
      OneFixup(image, fixups[0], mem);
      hide ApplyFixup, Feasible, Covers, Rebased;
      var r := ApplyFixup(image, fixups[0], mem);
      if r.Ok? {
        var m := r.value;
        OthersUntouched(image, fixups, mem, m);
        hide Separate;
        SucceedTogether(image, fixups[1..], m);
        forall i | 1 <= i < |fixups| ensures Feasible(image, fixups[i], mem) <==> Feasible(image, fixups[1..][i - 1], m) {
          ReadsWhatItCovers(image, fixups[i], mem, m);
        }
      }
    }
  }

  ghost predicate AllRebased(image: Image, fixups: seq<Fixup>, mem: Memory, m: Memory) {
    forall i | 0 <= i < |fixups| :: Rebased(image, fixups[i], mem, m)
  }

  /** Each listed value slides once and nothing else changes. */
  lemma {:induction false} EachSlidesOnce(image: Image, fixups: seq<Fixup>, mem: Memory)
    requires Separate(image, fixups) && ApplyAll(image, fixups, mem).1.None?
    ensures AllRebased(image, fixups, mem, ApplyAll(image, fixups, mem).0)
    ensures OnlyAt(image, fixups, mem, ApplyAll(image, fixups, mem).0)
    decreases |fixups|
  {
    NothingElseChanges(image, fixups, mem);
    if fixups != [] {
      OneFixup(image, fixups[0], mem);
      hide ApplyFixup, Feasible, Covers, Rebased;
      var m := ApplyFixup(image, fixups[0], mem).value;
      var m' := ApplyAll(image, fixups, mem).0;
      EachSlidesOnce'(image, fixups, mem, m, m');
    }
  }

  lemma {:induction false} EachSlidesOnce'(image: Image, fixups: seq<Fixup>, mem: Memory, m: Memory, m': Memory)
    requires fixups != [] && Separate(image, fixups)
    requires ApplyFixup(image, fixups[0], mem) == Ok(m) && ApplyAll(image, fixups[1..], m) == (m', None)
    ensures AllRebased(image, fixups, mem, m')
    decreases |fixups|, 0
  {
    OneFixup(image, fixups[0], mem);
    hide ApplyFixup, Feasible, Covers, Rebased;
    OthersUntouched(image, fixups, mem, m);
    EachSlidesOnce(image, fixups[1..], m);
    forall i | 1 <= i < |fixups| ensures Rebased(image, fixups[i], mem, m') {
      assert Rebased(image, fixups[1..][i - 1], m, m');
      RebasedFrom(image, fixups[i], mem, m, m');
    }
    assert Rebased(image, fixups[0], mem, m') by {
      forall x | x in m && Covers(image, fixups[0], x) ensures m[x] == m'[x] {
        forall i | 0 <= i < |fixups[1..]| ensures !Covers(image, fixups[1..][i], x) {
          assert Apart(image, fixups[0], fixups[i + 1]);
        }
      }
      RebasedStays(image, fixups[0], mem, m, m');
    }
  }

  ghost predicate Linked(image: Image, list: Listing, mem: Memory, m: Memory, error: Option<LinkError>) {
    && (error.None? <==> list.stop.None? && AllFeasible(image, list.fixups, mem))
    && OnlyAt(image, list.fixups, mem, m)
    && (error.None? ==> AllRebased(image, list.fixups, mem, m))
  }

  lemma PerformSeparate(image: Image, list: Listing, mem: Memory)
    requires Separate(image, list.fixups)
    ensures Linked(image, list, mem, Perform(image, list, mem).0, Perform(image, list, mem).1)
  {
    hide Separate, AllFeasible, AllRebased, OnlyAt;
    SucceedTogether(image, list.fixups, mem);
    NothingElseChanges(image, list.fixups, mem);
    if ApplyAll(image, list.fixups, mem).1.None? { EachSlidesOnce(image, list.fixups, mem); }
  }

  /** Linking without rebase information, or with binding information, touches nothing. */
  lemma LinkingNothing(image: Image, infos: seq<DyldInfo>, mem: Memory)
    ensures (exists i | 0 <= i < |infos| :: infos[i].binds) ==>
              Meaning(image, infos, mem) == (mem, Some(BindingUnsupported))
    ensures (forall i | 0 <= i < |infos| :: !infos[i].binds) && (infos == [] || infos[|infos| - 1].rebaseSize == 0) ==>
              Meaning(image, infos, mem) == (mem, None)
  {
  }

  /**
   Linking an image whose fixups do not overlap: it succeeds exactly when the stream is well formed and every
   location can be rebased, and then each listed value has slid once and no other byte has changed.
   */
  lemma LinkedImage(image: Image, infos: seq<DyldInfo>, mem: Memory, off: nat, size: nat)
    requires RebaseRange(infos) == Ok((off, size))
    requires Separate(image, Expand(image.bytes, off + size, Start(off)).fixups)
    ensures Linked(image, Expand(image.bytes, off + size, Start(off)), mem,
                   Meaning(image, infos, mem).0, Meaning(image, infos, mem).1)
  {
    hide Separate, Linked, Perform;
    PerformSeparate(image, Expand(image.bytes, off + size, Start(off)), mem);
  }

  /** Of several commands the last says where the stream is, and one with bindings anywhere is refused. */
  lemma LastCommandWins(before: seq<DyldInfo>, last: DyldInfo)
    ensures (forall i | 0 <= i < |before| :: !before[i].binds) && !last.binds ==>
              RebaseRange(before + [last]) == Ok((last.rebaseOff, last.rebaseSize))
    ensures (exists i | 0 <= i < |before| :: before[i].binds) || last.binds ==>
              RebaseRange(before + [last]) == Err(BindingUnsupported)
    ensures RebaseRange([]) == Ok((0, 0))
  {
    var all := before + [last];
    assert all[|before|] == last;
    if i :| 0 <= i < |before| && before[i].binds { assert all[i].binds; }
  }
}
