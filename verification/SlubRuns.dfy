/** The SLUB allocator over whole runs, and the one frame it cannot handle. */
module SlubRuns {
  import opened Prelude
  import opened Arithmetic
  import opened Slub
  import opened SlubInvariant
  import opened SlubSteps

  datatype Step =
    | AllocObject(cache: nat, ci: nat, supply: seq<nat>)
    | FreeObject(cache: nat, ci: nat, ptr: nat)
    | ReleaseCache(cache: nat)
    | UserWrite(ptr: nat, mem: map<nat, nat>)
    | OtherFrames(frames: set<nat>)

  /** The word at `a` and the object at `ptr` share a byte. */
  predicate Overlaps(a: nat, ptr: nat, size: nat) {
    a < ptr + size && ptr < a + WORD
  }

  const WORD: nat := 8

  /** What the callers and the frame allocator keep to; users may change any word that overlaps a live object. */
  ghost predicate Enabled(s: Slub, step: Step) {
    Tracked(s) &&
    match step
    case AllocObject(k, ci, supply) => k in s.caches && ci < CLASSES && Suppliable(s, k, ci, supply)
    case FreeObject(k, ci, ptr) => k in s.caches && ci < CLASSES && ptr in s.live && s.live[ptr] == ci
    case ReleaseCache(k) => k in s.caches
    case UserWrite(ptr, mem) =>
      && ptr in s.live && s.live[ptr] < CLASSES
      && forall a | Load(mem, a) != Load(s.mem, a) :: Overlaps(a, ptr, SIZE_CLASSES[s.live[ptr]])
    case OtherFrames(fs) => forall p | p in fs :: p % PAGE_SIZE == 0 && p in s.metas && p !in s.owner
  }

  ghost function Apply(s: Slub, step: Step): Slub
    requires Enabled(s, step)
  {
    match step
    case AllocObject(k, ci, supply) => Alloc(s, k, ci, supply).0
    case FreeObject(k, ci, ptr) => Dealloc(s, k, ci, ptr)
    case ReleaseCache(k) => Release(s, k, 0)
    case UserWrite(_, mem) => s.(mem := mem)
    case OtherFrames(fs) => s.(frames := fs)
  }

  /** No byte of a live object is a byte of a free-list link. */
  lemma WriteMisses(s: Slub, ptr: nat, x: nat, a: nat)
    requires Inv(s) && ptr in s.live && s.live[ptr] < CLASSES
    requires x in s.owner && x in s.free && a in s.free[x]
    ensures !Overlaps(a, ptr, SIZE_CLASSES[s.live[ptr]])
  {
    LivePage(s, ptr);
    assert PageInv(s, x);
    var p, ci := PageOf(s, ptr), s.live[ptr];
    assert IsObject(s, x, s.owner[x], a) && a !in s.live;
    ObjectEnds(s, p, ci, ptr);
    ObjectEnds(s, x, s.owner[x], a);
    hide Inv, FreeInv, PageInv;
    if x == p {
      SlotsApart(s, p, ci, a, ptr);
    } else {
      PagesApart(x, p);
    }
  }

  lemma SlotsApart(s: Slub, p: nat, ci: nat, a: nat, b: nat)
    requires IsObject(s, p, ci, a) && IsObject(s, p, ci, b) && a != b
    ensures !Overlaps(a, b, SIZE_CLASSES[ci]) && !Overlaps(b, a, SIZE_CLASSES[ci])
  {
    var size, x, y := SIZE_CLASSES[ci], a - s.base - p, b - s.base - p;
    assert size >= WORD;
    if y <= x < y + size { MultiplesApart(size, x, y); }
    if x <= y < x + size { MultiplesApart(size, y, x); }
  }

  lemma PagesApart(p: nat, q: nat)
    requires p % PAGE_SIZE == 0 && q % PAGE_SIZE == 0 && p != q
    ensures p + PAGE_SIZE <= q || q + PAGE_SIZE <= p
  {
  }

  /** An object does not reach past its page. */
  lemma ObjectEnds(s: Slub, p: nat, ci: nat, a: nat)
    requires IsObject(s, p, ci, a)
    ensures a + SIZE_CLASSES[ci] <= s.base + p + PAGE_SIZE
  {
    var size, start := SIZE_CLASSES[ci], s.base + p;
    ClassGeometry(ci, start);
    var j := SlotIndex(start, size, Count(ci), a);
    hide At, Count;
    if j + 1 < Count(ci) { AtOrder(start, size, j + 1, Count(ci)); }
    AtOrder(start, size, j, j + 1);
  }

  lemma WriteInv(s: Slub, ptr: nat, mem: map<nat, nat>)
    requires Inv(s) && Enabled(s, UserWrite(ptr, mem))
    ensures Inv(s.(mem := mem))
  {
    var r := s.(mem := mem);
    forall x | x in s.owner ensures PageFrame(s, r, x) {
      assert PageInv(s, x);
      assert LiveIn(r, x) == LiveIn(s, x);
      assert forall l, j :: InSlot(r, x, l, j) <==> InSlot(s, x, l, j);
      forall a | a in s.free[x] ensures Load(r.mem, a) == Load(s.mem, a) { WriteMisses(s, ptr, x, a); }
    }
    assert forall q, l, j :: InSlot(r, q, l, j) <==> InSlot(s, q, l, j);
    assert SlotsInv(r) && Grounds(r) by { hide PageInv; }
    hide PageInv, PageFrame, SlotsInv, Grounds;
    Rebuild(s, r);
  }

  lemma FramesInv(s: Slub, fs: set<nat>)
    requires Inv(s) && Enabled(s, OtherFrames(fs))
    ensures Inv(s.(frames := fs))
  {
    var r := s.(frames := fs);
    forall x | x in s.owner ensures PageFrame(s, r, x) {
      assert PageInv(s, x);
      assert LiveIn(r, x) == LiveIn(s, x);
      assert forall l, j :: InSlot(r, x, l, j) <==> InSlot(s, x, l, j);
    }
    assert forall q, l, j :: InSlot(r, q, l, j) <==> InSlot(s, q, l, j);
    assert SlotsInv(r) && Grounds(r) by { hide PageInv; }
    hide PageInv, PageFrame, SlotsInv, Grounds;
    Rebuild(s, r);
  }

  lemma StepInv(s: Slub, step: Step)
    requires Inv(s) && Enabled(s, step)
    ensures Inv(Apply(s, step))
  {
    hide Inv;
    match step
    case AllocObject(k, ci, supply) => AllocInv(s, k, ci, supply);
    case FreeObject(k, ci, ptr) => DeallocInv(s, k, ci, ptr);
    case ReleaseCache(k) => ReleaseInv(s, k, 0);
    case UserWrite(ptr, mem) => WriteInv(s, ptr, mem);
    case OtherFrames(fs) => FramesInv(s, fs);
  }

  /** No page in use: every slot empty, every frame aligned and tracked. */
  ghost predicate Booted(s: Slub) {
    && s.base % PAGE_SIZE == 0 && s.base > 0 && s.live == map[] && s.owner == map[] && s.free == map[]
    && (forall p | p in s.frames :: p in s.metas && p % PAGE_SIZE == 0)
    && (forall k | k in s.caches :: |s.caches[k]| == CLASSES && forall i | 0 <= i < CLASSES :: s.caches[k][i] == 0)
  }

  ghost predicate Run(states: seq<Slub>, steps: seq<Step>) {
    && |states| == |steps| + 1 && Booted(states[0])
    && forall i | 0 <= i < |steps| :: Enabled(states[i], steps[i]) && states[i + 1] == Apply(states[i], steps[i])
  }

  /** Every state of every run of allocations, frees, releases and user writes satisfies the invariant. */
  lemma {:induction false} RunKeepsInv(states: seq<Slub>, steps: seq<Step>, k: nat)
    requires Run(states, steps) && k < |states|
    ensures Inv(states[k])
  {
    if k == 0 {
      assert forall p, l, j :: !InSlot(states[0], p, l, j);
    } else {
      RunKeepsInv(states, steps, k - 1);
      assert Enabled(states[k - 1], steps[k - 1]);
      StepInv(states[k - 1], steps[k - 1]);
    }
  }

  // ---- metadata of pages that are not in use

  /** A page the allocator does not own has empty metadata. */
  ghost predicate Clean(s: Slub) {
    forall p | p in s.metas && p !in s.owner :: s.metas[p] == Meta(0, 0)
  }

  lemma PopClean(s: Slub, k: nat, ci: nat)
    requires Poppable(s, k, ci) && Clean(s)
    ensures Tracked(s) && Clean(PopObject(s, k, ci).0)
  {
    CachedPageHasObject(s, k, ci);
    PopIs(s, k, ci);
    hide Inv, PageInv, PopObject;
  }

  lemma NewPageClean(s: Slub, k: nat, ci: nat, p: nat)
    requires Clean(s) && k in s.caches && ci < |s.caches[k]| && ci < CLASSES
    ensures Clean(NewPage(s, k, ci, p))
  {
  }

  lemma AllocClean(s: Slub, k: nat, ci: nat, supply: seq<nat>)
    requires Inv(s) && Clean(s) && Enabled(s, AllocObject(k, ci, supply))
    ensures Clean(Apply(s, AllocObject(k, ci, supply)))
  {
    AllocIs(s, k, ci, supply);
    hide Inv, Clean, Alloc, PopObject, NewPage;
    var empty := s.caches[k][ci] == 0;
    var s1 := if empty && supply != [] then NewPage(s, k, ci, supply[0]) else s;
    if empty && supply != [] { NewPageClean(s, k, ci, supply[0]); }
    if !empty || supply != [] { PopClean(s1, k, ci); }
  }

  lemma DeallocClean(s: Slub, k: nat, ci: nat, ptr: nat)
    requires Returnable(s, k, ci, ptr) && Clean(s)
    ensures Tracked(s) && Clean(Dealloc(s, k, ci, ptr))
  {
    LivePage(s, ptr);
    DeallocIs(s, k, ci, ptr);
    hide Inv, PageInv, Dealloc;
  }

  lemma UncacheClean(s: Slub, k: nat, i: nat)
    requires Inv(s) && Clean(s) && k in s.caches && i < CLASSES && i < |s.caches[k]| && s.caches[k][i] != 0
    ensures s.caches[k][i] in s.metas && Clean(Uncached(s, k, i))
  {
    CachedPageHasObject(s, k, i);
    hide Inv, PageInv;
  }

  lemma {:induction false} ReleaseClean(s: Slub, k: nat, i: nat)
    requires Inv(s) && Clean(s) && k in s.caches && i <= CLASSES
    ensures Tracked(s) && Clean(Release(s, k, i))
    decreases CLASSES - i
  {
    if i < CLASSES {
      if s.caches[k][i] == 0 {
        ReleaseClean(s, k, i + 1);
      } else {
        UncacheClean(s, k, i);
        UncacheInv(s, k, i);
        UncachedSlots(s, k, i);
        hide Inv, DropRef, Clean;
        ReleaseClean(Uncached(s, k, i), k, i + 1);
      }
    }
  }

  lemma StepClean(s: Slub, step: Step)
    requires Inv(s) && Clean(s) && Enabled(s, step)
    ensures Clean(Apply(s, step))
  {
    hide Inv, Alloc, Dealloc, Release;
    match step
    case AllocObject(k, ci, supply) => AllocClean(s, k, ci, supply);
    case FreeObject(k, ci, ptr) => DeallocClean(s, k, ci, ptr);
    case ReleaseCache(k) => ReleaseClean(s, k, 0);
    case UserWrite(_, _) =>
    case OtherFrames(_) =>
  }

  /**
   From metadata that is empty at boot: in every state of every run a page's reference count tells whether the allocator
   owns it, and the metadata of a page it does not own is empty.
   */
  lemma {:induction false} CountedIffUsed(states: seq<Slub>, steps: seq<Step>, k: nat, p: nat)
    requires Run(states, steps) && k < |states| && p in states[k].metas
    requires forall x | x in states[0].metas :: states[0].metas[x] == Meta(0, 0)
    ensures states[k].metas[p].refcount > 0 <==> p in states[k].owner
    ensures p !in states[k].owner ==> states[k].metas[p] == Meta(0, 0)
  {
    RunKeepsInv(states, steps, k);
    RunKeepsClean(states, steps, k);
    if p in states[k].owner { assert PageInv(states[k], p); }
  }

  lemma {:induction false} RunKeepsClean(states: seq<Slub>, steps: seq<Step>, k: nat)
    requires Run(states, steps) && k < |states| && Clean(states[0])
    ensures Clean(states[k])
  {
    if k > 0 {
      hide Inv, Clean, Apply;
      RunKeepsClean(states, steps, k - 1);
      RunKeepsInv(states, steps, k - 1);
      assert Enabled(states[k - 1], steps[k - 1]);
      StepClean(states[k - 1], steps[k - 1]);
    }
  }

  // ---- counting

  ghost function Elements(q: seq<nat>): set<nat> {
    set a | a in q
  }

  lemma {:induction false} DistinctCount(q: seq<nat>)
    requires NoDup(q)
    ensures |Elements(q)| == |q|
  {
    if q != [] {
      var rest := q[1..];
      DistinctCount(rest);
      assert q == [q[0]] + rest;
      assert q[0] !in rest;
      assert Elements(q) == {q[0]} + Elements(rest);
    }
  }

  lemma SlotsPartition(s: Slub, p: nat)
    requires Inv(s) && p in s.owner
    ensures s.owner[p] < CLASSES && p in s.free && Elements(s.free[p]) !! LiveIn(s, p)
    ensures Elements(Objects(s.base + p, SIZE_CLASSES[s.owner[p]], 0, Count(s.owner[p])))
         == Elements(s.free[p]) + LiveIn(s, p)
  {
    assert PageInv(s, p);
    hide Inv, Count;
    var ci := s.owner[p];
    var all := Objects(s.base + p, SIZE_CLASSES[ci], 0, Count(ci));
    forall a ensures a in all <==> a in s.free[p] || a in LiveIn(s, p) {
      ObjectsAreSlots(s, p, ci, a);
      if IsObject(s, p, ci, a) { ObjectPage(s, p, ci, a); }
      hide IsObject;
    }
  }

  /** Free and live objects add up to what fits in a page. */
  lemma FreePlusLive(s: Slub, p: nat)
    requires Inv(s) && p in s.owner
    ensures s.owner[p] < CLASSES && p in s.free && |s.free[p]| + |LiveIn(s, p)| == Count(s.owner[p])
  {
    SlotsPartition(s, p);
    assert PageInv(s, p);
    var ci := s.owner[p];
    var all := Objects(s.base + p, SIZE_CLASSES[ci], 0, Count(ci));
    ClassGeometry(ci, s.base + p);
    ObjectsDistinct(s.base + p, SIZE_CLASSES[ci], Count(ci));
    DistinctCount(all);
    DistinctCount(s.free[p]);
    hide Inv, PageInv, Count, Elements, LiveIn;
  }

  // ---- when a frame goes back

  lemma {:induction false} ReleaseKeepsPages(s: Slub, k: nat, i: nat)
    requires Inv(s) && k in s.caches && i <= CLASSES
    ensures forall p | p in s.owner :: p in Release(s, k, i).owner || p in Release(s, k, i).frames
    ensures s.frames <= Release(s, k, i).frames
    decreases CLASSES - i
  {
    if i < CLASSES {
      if s.caches[k][i] == 0 {
        ReleaseKeepsPages(s, k, i + 1);
      } else {
        UncacheInv(s, k, i);
        UncachedPages(s, k, i);
        hide Inv, DropRef;
        ReleaseKeepsPages(Uncached(s, k, i), k, i + 1);
      }
    }
  }

  lemma UncachedPages(s: Slub, k: nat, i: nat)
    requires k in s.caches && i < |s.caches[k]| && s.caches[k][i] in s.metas
    ensures var r := Uncached(s, k, i);
            k in r.caches && s.frames <= r.frames && forall p | p in s.owner :: p in r.owner || p in r.frames
  {
  }

  lemma AllocKeepsPages(s: Slub, k: nat, ci: nat, supply: seq<nat>)
    requires Inv(s) && Enabled(s, AllocObject(k, ci, supply))
    ensures forall p | p in s.owner :: p in Alloc(s, k, ci, supply).0.owner
  {
    AllocIs(s, k, ci, supply);
    var s1 := if s.caches[k][ci] == 0 && supply != [] then NewPage(s, k, ci, supply[0]) else s;
    if s1.caches[k][ci] != 0 { PopIs(s1, k, ci); }
  }

  /**
   A slab page's frame goes back exactly when the last reference does: after any step, a page that was a slab
   page is free if and only if it holds no live object and no cache slot names it.
   */
  lemma FrameReturned(s: Slub, step: Step, p: nat)
    requires Inv(s) && Enabled(s, step) && !step.OtherFrames? && p in s.owner
    ensures var r := Apply(s, step); p in r.frames <==> LiveIn(r, p) == {} && !Cached(r, p)
  {
    StepInv(s, step);
    var r := Apply(s, step);
    assert p in r.owner || p in r.frames by {
      match step
      case AllocObject(k, ci, supply) => AllocKeepsPages(s, k, ci, supply);
      case FreeObject(k, ci, ptr) => DeallocIs(s, k, ci, ptr);
      case ReleaseCache(k) => ReleaseKeepsPages(s, k, 0);
      case _ =>
    }
    hide Apply;
    if p in r.owner {
      assert PageInv(r, p);
    } else {
      assert forall k, i :: !InSlot(r, p, k, i);
      forall a | a in r.live ensures PageOf(r, a) != p { assert PageOf(r, a) in r.owner; }
      assert LiveIn(r, p) == {};
    }
  }

  // ---- frame 0

  lemma NewPageFields(s: Slub, k: nat, ci: nat, p: nat)
    requires k in s.caches && |s.caches[k]| == CLASSES && ci < CLASSES && s.base > 0
    ensures var r := NewPage(s, k, ci, p);
            && p in r.metas && r.metas == s.metas[p := r.metas[p]] && r.metas[p].refcount == 1
            && r.base == s.base && r.live == s.live && r.frames == s.frames - {p} && r.owner == s.owner[p := ci]
            && k in r.caches && r.caches == SetSlot(s, k, ci, p).caches && |r.caches[k]| == CLASSES
            && r.caches[k][ci] == p && IsObject(s, p, ci, r.metas[p].freeHead) && r.metas[p].freeHead != 0
  {
    NewPageThreaded(s, k, ci, p);
    var r := NewPage(s, k, ci, p);
    assert r.free[p][0] in r.free[p];
    hide Thread, Count;
  }

  /** A pop from a page that keeps another reference changes that page only. */
  lemma PopTouches(s: Slub, k: nat, ci: nat)
    requires Tracked(s) && k in s.caches && ci < CLASSES && s.caches[k][ci] != 0
    requires s.metas[s.caches[k][ci]].refcount > 0
    ensures var p := s.caches[k][ci];
            var (r, obj) := PopObject(s, k, ci);
            && p in r.metas && r.metas == s.metas[p := r.metas[p]] && r.frames == s.frames && r.owner == s.owner
            && r.base == s.base && obj == s.metas[p].freeHead && r.live == s.live[obj := ci]
  {
    var p := s.caches[k][ci];
    var m := s.metas[p];
    var next := Load(s.mem, m.freeHead);
    assert s.metas[p := Meta(next, m.refcount + 1)][p := Meta(next, m.refcount)] == s.metas[p := Meta(next, m.refcount)];
  }

  /** The state in which `alloc` pops after frame 0 was its first fresh page and q its second. */
  lemma ZeroThenAnother(s: Slub, k: nat, ci: nat, q: nat, rest: seq<nat>)
    requires Inv(s) && k in s.caches && ci < CLASSES && |s.caches[k]| == CLASSES && s.caches[k][ci] == 0
    requires 0 in s.frames && q in s.frames && q != 0 && forall p | p in rest :: p in s.frames
    ensures var s1 := NewPage(s, k, ci, 0);
            var s2 := NewPage(s1, k, ci, q);
            && (forall p | p in [0, q] + rest :: p in s.metas)
            && Tracked(s1) && k in s1.caches && ci < |s1.caches[k]|
            && Tracked(s2) && k in s2.caches && s2.caches[k][ci] == q
            && Alloc(s, k, ci, [0, q] + rest) == (PopObject(s2, k, ci).0, Some(PopObject(s2, k, ci).1))
  {
    var s1 := NewPage(s, k, ci, 0);
    var s2 := NewPage(s1, k, ci, q);
    NewPageFields(s, k, ci, 0);
    NewPageFields(s1, k, ci, q);
    hide NewPage, PopObject, Inv, IsObject;
    assert ([0, q] + rest)[1..] == [q] + rest && ([q] + rest)[1..] == rest;
    assert Alloc(s2, k, ci, rest) == (PopObject(s2, k, ci).0, Some(PopObject(s2, k, ci).1));
    assert Alloc(s1, k, ci, [q] + rest) == Alloc(s2, k, ci, rest);
  }

  /** Neither free, nor live, nor cached, yet counted as referenced. */
  ghost predicate Leaked(s: Slub, p: nat) {
    && p in s.metas && s.metas[p].refcount == 1 && p in s.owner
    && p !in s.frames && LiveIn(s, p) == {} && !Cached(s, p)
  }

  lemma ZeroLeftBehind(s: Slub, k: nat, ci: nat)
    requires Inv(s) && k in s.caches && ci < CLASSES && |s.caches[k]| == CLASSES && s.caches[k][ci] == 0 && 0 in s.frames
    ensures Leaked(NewPage(s, k, ci, 0), 0)
  {
    NewPageFields(s, k, ci, 0);
    assert forall a | a in s.live :: PageOf(s, a) != 0;
    hide NewPage, IsObject;
  }

  lemma ZeroStaysLeaked(s: Slub, k: nat, ci: nat, q: nat)
    requires Leaked(s, 0) && k in s.caches && ci < CLASSES && |s.caches[k]| == CLASSES && s.base > 0
    requires q != 0 && q % PAGE_SIZE == 0 && Tracked(NewPage(s, k, ci, q))
    ensures var s2 := NewPage(s, k, ci, q);
            k in s2.caches && |s2.caches[k]| == CLASSES && s2.caches[k][ci] == q && Leaked(PopObject(s2, k, ci).0, 0)
  {
    NewPageFields(s, k, ci, q);
    var s2 := NewPage(s, k, ci, q);
    PopTouches(s2, k, ci);
    var (r, obj) := PopObject(s2, k, ci);
    ObjectPage(s, q, ci, obj);
    hide NewPage, PopObject, IsObject;
    assert forall a :: a in LiveIn(r, 0) ==> a in LiveIn(s, 0);
  }

  /**
   The invariant survives an allocation exactly when the fresh page it takes, if any, is not frame 0. A page at
   frame 0 is indistinguishable from an empty slot: it is lost as soon as it is initialised.
   */
  lemma AllocKeepsInvIffNotZero(s: Slub, k: nat, ci: nat, supply: seq<nat>)
    requires Inv(s) && k in s.caches && ci < CLASSES
    requires NoDup(supply) && forall p | p in supply :: p in s.frames
    ensures (forall p | p in supply :: p in s.metas) && |s.caches[k]| == CLASSES
    ensures var takesZero := s.caches[k][ci] == 0 && supply != [] && supply[0] == 0;
            && (Inv(Alloc(s, k, ci, supply).0) <==> !takesZero)
            && (takesZero ==> Leaked(Alloc(s, k, ci, supply).0, 0))
  {
    if s.caches[k][ci] == 0 && supply != [] && supply[0] == 0 {
      FrameZeroLeaks(s, k, ci, supply);
    } else {
      AllocInv(s, k, ci, supply);
    }
  }

  lemma FrameZeroLeaks(s: Slub, k: nat, ci: nat, supply: seq<nat>)
    requires Inv(s) && k in s.caches && ci < CLASSES && |s.caches[k]| == CLASSES && s.caches[k][ci] == 0
    requires NoDup(supply) && supply != [] && supply[0] == 0 && forall p | p in supply :: p in s.frames
    ensures (forall p | p in supply :: p in s.metas)
    ensures Leaked(Alloc(s, k, ci, supply).0, 0) && !Inv(Alloc(s, k, ci, supply).0)
  {
    var s1 := NewPage(s, k, ci, 0);
    assert supply[0] in supply;
    ZeroLeftBehind(s, k, ci);
    NewPageFields(s, k, ci, 0);
    LeakedBreaks(Alloc(s, k, ci, supply).0);
    if |supply| == 1 {
      assert supply[1..] == [];
      hide NewPage, Inv, Leaked;
    } else {
      var q := supply[1];
      assert q in supply;
      assert supply == [0, q] + supply[2..];
      ZeroThenAnother(s, k, ci, q, supply[2..]);
      ZeroStaysLeaked(s1, k, ci, q);
    }
  }

  lemma LeakedBreaks(s: Slub)
    ensures Leaked(s, 0) ==> !Inv(s)
  {
    assert 0 in s.owner ==> !PageInv(s, 0);
  }

  /** A machine whose only frame is frame 0. */
  const ONLY_ZERO: Slub :=
    Slub(PAGE_SIZE, map[], map[0 := Meta(0, 0)], map[0 := [0, 0, 0, 0, 0, 0, 0, 0, 0]], {0}, map[], map[], map[])

  lemma OnlyZeroBoots()
    ensures Booted(ONLY_ZERO) && Tracked(ONLY_ZERO) && Inv(ONLY_ZERO)
    ensures 0 in ONLY_ZERO.caches && ONLY_ZERO.caches[0][0] == 0
  {
    assert forall p, l, j :: !InSlot(ONLY_ZERO, p, l, j);
    hide PageInv;
  }

  /** The first allocation on it leaks the frame. */
  lemma FirstFrameLeaks()
    ensures Booted(ONLY_ZERO) && Tracked(ONLY_ZERO)
    ensures Leaked(Alloc(ONLY_ZERO, 0, 0, [0]).0, 0) && !Inv(Alloc(ONLY_ZERO, 0, 0, [0]).0)
  {
    hide Inv, Alloc, Booted, Tracked, Leaked;
    OnlyZeroBoots();
    FrameZeroLeaks(ONLY_ZERO, 0, 0, [0]);
  }
}
