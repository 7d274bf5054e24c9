/** The boot memory map of bootloader/protocol/src/memory.rs, and what kind of memory each address is. */
module Arenas {
  import opened Prelude

  datatype ReserveReason = X86GlobalDescriptorTable

  datatype Kind =
    | Usable
    | Reserved
    | AcpiReclaimable
    | AcpiNvs
    | BadMemory
    | BootloaderProvideInfo
    | BootloaderReserved(reason: ReserveReason)
    | ExecutableAndModules
    | KernelStack
    | KernelPageTable
    | KernelSymbolTable
    | KernelReserved
    | Framebuffer
    | EndOfMemoryMap
    | Unknown(code: nat)

  datatype Arena = Arena(start: nat, end: nat, kind: Kind)

  predicate In(a: Arena, x: nat) {
    a.start <= x < a.end
  }

  /** The kind of an address, by the last arena that holds it. */
  function KindAt(arenas: seq<Arena>, x: nat): Option<Kind> {
    if arenas == [] then None
    else if In(arenas[|arenas| - 1], x) then Some(arenas[|arenas| - 1].kind)
    else KindAt(arenas[..|arenas| - 1], x)
  }

  /** Non-empty arenas, in order, not overlapping. */
  predicate Tidy(arenas: seq<Arena>) {
    && (forall i | 0 <= i < |arenas| :: arenas[i].start < arenas[i].end)
    && (forall i, j | 0 <= i < j < |arenas| :: arenas[i].end <= arenas[j].start)
  }

  /** No two neighbours could have been one arena. */
  predicate Merged(arenas: seq<Arena>) {
    forall i | 1 <= i < |arenas| :: !(arenas[i - 1].end == arenas[i].start && arenas[i - 1].kind == arenas[i].kind)
  }

  lemma KindAtAppend(arenas: seq<Arena>, a: Arena, x: nat)
    ensures KindAt(arenas + [a], x) == if In(a, x) then Some(a.kind) else KindAt(arenas, x)
  {
    assert (arenas + [a])[..|arenas|] == arenas;
  }

  /** In a tidy map the kind of an address is that of the one arena that holds it. */
  lemma {:induction false} KindAtIs(arenas: seq<Arena>, i: nat, x: nat)
    requires Tidy(arenas) && i < |arenas| && In(arenas[i], x)
    ensures KindAt(arenas, x) == Some(arenas[i].kind)
    decreases |arenas|
  {
    var n := |arenas| - 1;
    if i < n {
      assert arenas[i].end <= arenas[n].start;
      assert Tidy(arenas[..n]);
      KindAtIs(arenas[..n], i, x);
    }
  }

  lemma {:induction false} KindAtNone(arenas: seq<Arena>, x: nat)
    requires forall i | 0 <= i < |arenas| :: !In(arenas[i], x)
    ensures KindAt(arenas, x) == None
    decreases |arenas|
  {
    if arenas != [] { KindAtNone(arenas[..|arenas| - 1], x); }
  }

  // ---- A tidy, merged map is determined by what it says

  ghost predicate Agree(a: seq<Arena>, b: seq<Arena>) {
    forall x: nat :: KindAt(a, x) == KindAt(b, x)
  }

  /** The arena that gives an address its kind. */
  lemma {:induction false} Holder(arenas: seq<Arena>, x: nat) returns (i: nat)
    requires KindAt(arenas, x).Some?
    ensures i < |arenas| && In(arenas[i], x) && KindAt(arenas, x) == Some(arenas[i].kind)
    decreases |arenas|
  {
    var n := |arenas| - 1;
    if In(arenas[n], x) { i := n; } else { i := Holder(arenas[..n], x); }
  }

  lemma LastEndsFirst(a: seq<Arena>, b: seq<Arena>)
    requires Tidy(a) && Tidy(b) && a != [] && Agree(a, b)
    ensures b != [] && a[|a| - 1].end <= b[|b| - 1].end
  {
    var x := a[|a| - 1].end - 1;
    KindAtIs(a, |a| - 1, x);
    assert KindAt(b, x).Some?;
    var i := Holder(b, x);
    assert i < |b| - 1 ==> b[i].end <= b[|b| - 1].start;
  }

  lemma LastStartsFirst(a: seq<Arena>, b: seq<Arena>)
    requires Tidy(a) && Tidy(b) && Merged(b) && a != [] && b != [] && Agree(a, b)
    requires a[|a| - 1].end == b[|b| - 1].end
    ensures a[|a| - 1].kind == b[|b| - 1].kind && b[|b| - 1].start <= a[|a| - 1].start
  {
    var m, n := |a| - 1, |b| - 1;
    KindAtIs(a, m, a[m].end - 1);
    KindAtIs(b, n, b[n].end - 1);
    assert KindAt(a, a[m].end - 1) == KindAt(b, a[m].end - 1);
    if a[m].start < b[n].start {
      var x := b[n].start - 1;
      KindAtIs(a, m, x);
      assert KindAt(a, x) == KindAt(b, x);
      var i := Holder(b, x);
    }
  }

  lemma InitAgrees(a: seq<Arena>, b: seq<Arena>)
    requires Tidy(a) && Tidy(b) && a != [] && b != [] && Agree(a, b) && a[|a| - 1] == b[|b| - 1]
    ensures Tidy(a[..|a| - 1]) && Tidy(b[..|b| - 1]) && Agree(a[..|a| - 1], b[..|b| - 1])
  {
    var m, n := |a| - 1, |b| - 1;
    forall x: nat ensures KindAt(a[..m], x) == KindAt(b[..n], x) {
      assert KindAt(a, x) == KindAt(b, x);
      if In(a[m], x) {
        KindAtNone(a[..m], x);
        KindAtNone(b[..n], x);
      }
    }
  }

  /** Two sorted, disjoint, fully merged maps that say the same of every address are the same map. */
  lemma {:induction false} OneMapPerMeaning(a: seq<Arena>, b: seq<Arena>)
    requires Tidy(a) && Tidy(b) && Merged(a) && Merged(b) && Agree(a, b)
    ensures a == b
    decreases |a|
  {
    if a == [] {
      if b != [] { LastEndsFirst(b, a); }
    } else {
      LastEndsFirst(a, b);
      LastEndsFirst(b, a);
      LastStartsFirst(a, b);
      LastStartsFirst(b, a);
      InitAgrees(a, b);
      OneMapPerMeaning(a[..|a| - 1], b[..|b| - 1]);
      assert a == a[..|a| - 1] + [a[|a| - 1]] && b == b[..|b| - 1] + [b[|b| - 1]];
    }
  }
}
