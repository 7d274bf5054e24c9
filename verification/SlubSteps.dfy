/** Every SLUB operation keeps the invariant, and what each promises its caller. */
module SlubSteps {
  import opened Prelude
  import opened Slub
  import opened SlubInvariant

  lemma Rebuild(s: Slub, r: Slub)
    requires Inv(s) && Grounds(r) && SlotsInv(r)
    requires forall p {:trigger PageInv(r, p)} | p in r.owner :: PageInv(r, p) || (p in s.owner && PageFrame(s, r, p))
    ensures Inv(r)
  {
    hide PageInv, PageFrame, Grounds, SlotsInv;
    forall p | p in r.owner ensures PageInv(r, p) {
      if !PageInv(r, p) {
        assert PageInv(s, p);
        PageKept(s, r, p);
      }
    }
  }

  /** Writing one slot changes the cached page of that slot only. */
  lemma SlotWritten(s: Slub, r: Slub, k: nat, ci: nat, v: nat)
    requires k in s.caches && ci < |s.caches[k]| && r.caches == SetSlot(s, k, ci, v).caches
    ensures forall p, l, j :: InSlot(r, p, l, j) <==> if l == k && j == ci then p == v && p != 0 else InSlot(s, p, l, j)
  {
  }

  // ---- a fresh page for an empty slot

  lemma NewPageThreaded(s: Slub, k: nat, ci: nat, p: nat)
    requires k in s.caches && ci < |s.caches[k]| && ci < CLASSES && s.base > 0
    ensures var r := NewPage(s, k, ci, p);
            && p in r.free && IsList(r.mem, r.metas[p].freeHead, r.free[p]) && NoDup(r.free[p])
            && (forall a :: a in r.free[p] <==> IsObject(s, p, ci, a))
            && |r.free[p]| == Count(ci) >= 2
  {
    ClassGeometry(ci, s.base + p);
    var start, size, n := s.base + p, SIZE_CLASSES[ci], Count(ci);
    hide Count, At;
    assert Objects(start, size, n, n) == [];
    ThreadBuilds(s.mem, start, size, n, n, 0);
    ObjectsDistinct(start, size, n);
    forall a ensures a in Objects(start, size, 0, n) <==> IsObject(s, p, ci, a) { ObjectsAreSlots(s, p, ci, a); }
  }

  lemma NewPageMemory(s: Slub, k: nat, ci: nat, p: nat, a: nat)
    requires k in s.caches && ci < |s.caches[k]| && ci < CLASSES && !IsObject(s, p, ci, a)
    ensures Load(NewPage(s, k, ci, p).mem, a) == Load(s.mem, a)
  {
    ClassGeometry(ci, s.base + p);
    hide Count, At;
    ThreadFrame(s.mem, s.base + p, SIZE_CLASSES[ci], Count(ci), 0, a);
  }

  lemma NewPageOther(s: Slub, k: nat, ci: nat, p: nat, x: nat)
    requires Inv(s) && k in s.caches && ci < CLASSES && s.caches[k][ci] == 0 && p in s.frames && x in s.owner
    ensures PageFrame(s, NewPage(s, k, ci, p), x)
  {
    assert PageInv(s, x);
    var r := NewPage(s, k, ci, p);
    assert r.live == s.live && r.base == s.base;
    assert LiveIn(r, x) == LiveIn(s, x);
    SlotWritten(s, r, k, ci, p);
    assert forall l, j :: InSlot(r, x, l, j) <==> InSlot(s, x, l, j);
    forall a | a in s.free[x] ensures Load(r.mem, a) == Load(s.mem, a) {
      ObjectPage(s, x, s.owner[x], a);
      if IsObject(s, p, ci, a) { ObjectPage(s, p, ci, a); } else { NewPageMemory(s, k, ci, p, a); }
    }
  }

  lemma NewPageFree(s: Slub, k: nat, ci: nat, p: nat)
    requires k in s.caches && ci < |s.caches[k]| && ci < CLASSES && s.base > 0 && p % PAGE_SIZE == 0
    requires LiveIn(s, p) == {}
    ensures var r := NewPage(s, k, ci, p);
            p in r.owner && p in r.free && p in r.metas && FreeInv(r, p) && r.free[p] != []
  {
    var r := NewPage(s, k, ci, p);
    NewPageThreaded(s, k, ci, p);
    forall a | IsObject(s, p, ci, a) ensures a !in s.live {
      ObjectPage(s, p, ci, a);
      assert a in s.live ==> a in LiveIn(s, p);
    }
    hide Thread, Count;
    assert forall a :: IsObject(r, p, ci, a) <==> IsObject(s, p, ci, a);
    hide IsObject;
  }

  lemma NewPageOwn(s: Slub, k: nat, ci: nat, p: nat)
    requires Grounds(s) && k in s.caches && ci < CLASSES && s.caches[k][ci] == 0 && p in s.frames && p != 0
    ensures PageInv(NewPage(s, k, ci, p), p)
  {
    hide IsObject, FreeInv, Count, Thread;
    var r := NewPage(s, k, ci, p);
    assert forall a | a in s.live :: PageOf(s, a) != p;
    assert LiveIn(s, p) == {};
    assert LiveIn(r, p) == LiveIn(s, p);
    NewPageFree(s, k, ci, p);
    SlotWritten(s, r, k, ci, p);
    assert InSlot(r, p, k, ci);
  }

  lemma NewPageGrounds(s: Slub, k: nat, ci: nat, p: nat)
    requires Grounds(s) && SlotsInv(s) && k in s.caches && ci < CLASSES && s.caches[k][ci] == 0 && p in s.frames && p != 0
    ensures Grounds(NewPage(s, k, ci, p)) && SlotsInv(NewPage(s, k, ci, p))
  {
    var r := NewPage(s, k, ci, p);
    SlotWritten(s, r, k, ci, p);
    assert forall l, j :: !InSlot(s, p, l, j);
  }

  lemma NewPageInv(s: Slub, k: nat, ci: nat, p: nat)
    requires Inv(s) && k in s.caches && ci < CLASSES && s.caches[k][ci] == 0 && p in s.frames && p != 0
    ensures Inv(NewPage(s, k, ci, p))
  {
    hide PageInv, PageFrame;
    var r := NewPage(s, k, ci, p);
    NewPageOwn(s, k, ci, p);
    NewPageGrounds(s, k, ci, p);
    forall x | x in r.owner ensures PageInv(r, x) || (x in s.owner && PageFrame(s, r, x)) {
      if x != p { NewPageOther(s, k, ci, p, x); }
    }
    hide Grounds, SlotsInv;
    Rebuild(s, r);
  }

  // ---- taking an object

  ghost predicate Poppable(s: Slub, k: nat, ci: nat) {
    Inv(s) && k in s.caches && ci < CLASSES && ci < |s.caches[k]| && s.caches[k][ci] != 0
  }

  /** A cached page has a free object, so the slow path for an exhausted cached page is never needed. */
  lemma CachedPageHasObject(s: Slub, k: nat, ci: nat)
    requires Poppable(s, k, ci)
    ensures var p := s.caches[k][ci];
            && p in s.owner && s.owner[p] == ci && Cached(s, p) && PageInv(s, p)
            && s.free[p] != [] && s.metas[p].freeHead == s.free[p][0] != 0
            && (forall l, j :: InSlot(s, p, l, j) <==> l == k && j == ci)
  {
    var p := s.caches[k][ci];
    assert InSlot(s, p, k, ci);
    assert PageInv(s, p);
  }

  /** The state after a pop, in terms of the free list instead of the words in memory. */
  function Popped(s: Slub, k: nat, ci: nat): Slub
    requires k in s.caches && ci < |s.caches[k]|
    requires var p := s.caches[k][ci]; p in s.metas && p in s.free && s.free[p] != []
  {
    var p := s.caches[k][ci];
    var q := s.free[p];
    var last := |q| == 1;
    SetSlot(s, k, ci, if last then 0 else p)
      .(metas := s.metas[p := Meta(if last then 0 else q[1], s.metas[p].refcount + if last then 0 else 1)],
        live := s.live[q[0] := ci], free := s.free[p := q[1..]])
  }

  lemma PopIs(s: Slub, k: nat, ci: nat)
    requires Poppable(s, k, ci)
    ensures var p := s.caches[k][ci];
            p in s.metas && p in s.free && s.free[p] != [] && PopObject(s, k, ci) == (Popped(s, k, ci), s.free[p][0])
  {
    CachedPageHasObject(s, k, ci);
    var p := s.caches[k][ci];
    var q := s.free[p];
    assert IsList(s.mem, Load(s.mem, q[0]), q[1..]);
    assert s.caches[k][ci := p] == s.caches[k];
    assert s.caches[k := s.caches[k]] == s.caches;
    hide Inv, FreeInv;
    var m := s.metas[p];
    var next := Load(s.mem, q[0]);
    assert next == if |q| == 1 then 0 else q[1];
    assert s.metas[p := Meta(next, m.refcount + 1)][p := Meta(next, m.refcount)] == s.metas[p := Meta(next, m.refcount)];
  }

  lemma PopOther(s: Slub, k: nat, ci: nat, x: nat)
    requires Poppable(s, k, ci) && x in s.owner && x != s.caches[k][ci]
    ensures PageFrame(s, PopObject(s, k, ci).0, x)
  {
    CachedPageHasObject(s, k, ci);
    PopIs(s, k, ci);
    var p, r := s.caches[k][ci], Popped(s, k, ci);
    assert PageInv(s, x);
    var head := s.free[p][0];
    assert head in s.free[p];
    ObjectPage(s, p, ci, head);
    SlotWritten(s, r, k, ci, if |s.free[p]| == 1 then 0 else p);
    assert LiveIn(r, x) == LiveIn(s, x);
    assert forall l, j :: InSlot(r, x, l, j) <==> InSlot(s, x, l, j);
  }

  lemma PopFree(s: Slub, k: nat, ci: nat)
    requires Poppable(s, k, ci)
    ensures var p := s.caches[k][ci];
            var r := PopObject(s, k, ci).0;
            p in r.owner && p in r.free && p in r.metas && FreeInv(r, p)
  {
    CachedPageHasObject(s, k, ci);
    PopIs(s, k, ci);
    var p, r := s.caches[k][ci], Popped(s, k, ci);
    var q := s.free[p];
    assert q == [q[0]] + q[1..];
    assert IsList(s.mem, Load(s.mem, q[0]), q[1..]);
    assert |q| > 1 ==> q[1..][0] == q[1];
    assert forall a :: IsObject(r, p, ci, a) <==> IsObject(s, p, ci, a);
    hide IsObject, Inv, PageInv;
  }

  lemma PopLive(s: Slub, k: nat, ci: nat)
    requires Poppable(s, k, ci)
    ensures var p := s.caches[k][ci];
            var (r, obj) := PopObject(s, k, ci);
            && obj !in s.live && LiveIn(r, p) == LiveIn(s, p) + {obj}
            && (forall a | a in LiveIn(r, p) :: IsObject(r, p, ci, a) && r.live[a] == ci)
            && IsObject(s, p, ci, obj) && r.live == s.live[obj := ci]
  {
    CachedPageHasObject(s, k, ci);
    PopIs(s, k, ci);
    var p, r := s.caches[k][ci], Popped(s, k, ci);
    var obj := s.free[p][0];
    assert obj in s.free[p];
    ObjectPage(s, p, ci, obj);
    hide Inv, FreeInv;
    assert forall a :: IsObject(r, p, ci, a) <==> IsObject(s, p, ci, a);
    assert forall a :: PageOf(r, a) == PageOf(s, a);
    hide IsObject, PageOf;
  }

  lemma PopCached(s: Slub, k: nat, ci: nat)
    requires Poppable(s, k, ci)
    ensures var p := s.caches[k][ci]; p in s.free && (Cached(PopObject(s, k, ci).0, p) <==> |s.free[p]| > 1)
  {
    CachedPageHasObject(s, k, ci);
    PopIs(s, k, ci);
    var p, r := s.caches[k][ci], Popped(s, k, ci);
    hide Inv, PageInv;
    SlotWritten(s, r, k, ci, if |s.free[p]| == 1 then 0 else p);
    assert |s.free[p]| > 1 ==> InSlot(r, p, k, ci);
  }

  lemma PopOwn(s: Slub, k: nat, ci: nat)
    requires Poppable(s, k, ci)
    ensures var p := s.caches[k][ci]; p in PopObject(s, k, ci).0.owner && PageInv(PopObject(s, k, ci).0, p)
  {
    CachedPageHasObject(s, k, ci);
    PopIs(s, k, ci);
    PopFree(s, k, ci);
    PopLive(s, k, ci);
    PopCached(s, k, ci);
    hide IsObject, FreeInv, Inv, Cached, LiveIn;
  }

  lemma PopGrounds(s: Slub, k: nat, ci: nat)
    requires Poppable(s, k, ci)
    ensures Grounds(PopObject(s, k, ci).0) && SlotsInv(PopObject(s, k, ci).0)
  {
    CachedPageHasObject(s, k, ci);
    PopIs(s, k, ci);
    var p, r := s.caches[k][ci], Popped(s, k, ci);
    assert s.free[p][0] in s.free[p];
    ObjectPage(s, p, ci, s.free[p][0]);
    SlotWritten(s, r, k, ci, if |s.free[p]| == 1 then 0 else p);
    hide PageInv, IsObject, PageOf;
  }

  lemma PopInv(s: Slub, k: nat, ci: nat)
    requires Poppable(s, k, ci)
    ensures Inv(PopObject(s, k, ci).0)
  {
    var r := PopObject(s, k, ci).0;
    var p := s.caches[k][ci];
    PopIs(s, k, ci);
    PopOwn(s, k, ci);
    PopGrounds(s, k, ci);
    hide PageInv, PageFrame, Grounds, SlotsInv;
    forall x | x in r.owner ensures PageInv(r, x) || (x in s.owner && PageFrame(s, r, x)) {
      if x != p { PopOther(s, k, ci, x); }
    }
    Rebuild(s, r);
  }

  // ---- giving an object back

  /** The caller returns a live object with the layout class it was allocated for. */
  ghost predicate Returnable(s: Slub, k: nat, ci: nat, ptr: nat) {
    Inv(s) && k in s.caches && ci < CLASSES && ptr in s.live && s.live[ptr] == ci
  }

  lemma LivePage(s: Slub, ptr: nat)
    requires Inv(s) && ptr in s.live
    ensures var p := PageOf(s, ptr);
            && ptr >= s.base && p in s.owner && PageInv(s, p) && ptr in LiveIn(s, p)
            && s.owner[p] == s.live[ptr] && IsObject(s, p, s.live[ptr], ptr)
  {
    assert PageInv(s, PageOf(s, ptr));
  }

  function Pushed(s: Slub, p: nat, ptr: nat, refcount: nat): Slub
    requires p in s.metas && p in s.free
  {
    s.(mem := s.mem[ptr := s.metas[p].freeHead], live := s.live - {ptr},
       metas := s.metas[p := Meta(ptr, refcount)], free := s.free[p := [ptr] + s.free[p]])
  }

  predicate Recaches(s: Slub, k: nat, ci: nat, p: nat)
    requires k in s.caches && ci < |s.caches[k]|
  {
    p in s.metas && s.metas[p].freeHead == 0 && s.caches[k][ci] == 0
  }

  lemma DeallocIs(s: Slub, k: nat, ci: nat, ptr: nat)
    requires Returnable(s, k, ci, ptr)
    ensures var p := PageOf(s, ptr);
            && p in s.metas && p in s.free && |s.caches[k]| == CLASSES && s.metas[p].refcount > 0
            && var rc := s.metas[p].refcount;
               Dealloc(s, k, ci, ptr) ==
                 if rc == 1 then FreePage(Pushed(s, p, ptr, 0), p)
                 else if Recaches(s, k, ci, p) then SetSlot(Pushed(s, p, ptr, rc), k, ci, p)
                 else Pushed(s, p, ptr, rc - 1)
  {
    LivePage(s, ptr);
    var p := PageOf(s, ptr);
    var m := s.metas[p];
    hide Inv, FreeInv, IsObject;
    var pushed := Meta(ptr, m.refcount);
    assert s.metas[p := pushed][p := Meta(0, 0)] == s.metas[p := Meta(ptr, 0)][p := Meta(0, 0)];
    assert s.metas[p := pushed][p := Meta(ptr, m.refcount - 1)] == s.metas[p := Meta(ptr, m.refcount - 1)];
    assert s.metas[p := Meta(ptr, m.refcount - 1)][p := pushed] == s.metas[p := pushed];
    assert s.free[p := [ptr] + s.free[p]] - {p} == s.free - {p};
  }

  /** The last object of an uncached page: every other page looks as before. */
  lemma FreedOther(s: Slub, p: nat, ptr: nat, x: nat)
    requires Inv(s) && ptr in s.live && p == PageOf(s, ptr) && p in s.metas && p in s.free && x in s.owner && x != p
    ensures PageFrame(s, FreePage(Pushed(s, p, ptr, 0), p), x)
  {
    PushedOther(s, p, ptr, 0, x);
    var r, r' := Pushed(s, p, ptr, 0), FreePage(Pushed(s, p, ptr, 0), p);
    assert forall l, j :: InSlot(r', x, l, j) <==> InSlot(r, x, l, j);
    assert LiveIn(r', x) == LiveIn(r, x);
  }

  lemma PushedOther(s: Slub, p: nat, ptr: nat, refcount: nat, x: nat)
    requires Inv(s) && ptr in s.live && p == PageOf(s, ptr) && p in s.metas && p in s.free && x in s.owner && x != p
    ensures PageFrame(s, Pushed(s, p, ptr, refcount), x)
  {
    assert PageInv(s, x);
    var r := Pushed(s, p, ptr, refcount);
    assert LiveIn(r, x) == LiveIn(s, x);
    assert forall l, j :: InSlot(r, x, l, j) <==> InSlot(s, x, l, j);
    forall a | a in s.free[x] ensures Load(r.mem, a) == Load(s.mem, a) {
      ObjectPage(s, x, s.owner[x], a);
    }
  }

  lemma PushedFree(s: Slub, ptr: nat, refcount: nat)
    requires Inv(s) && ptr in s.live
    ensures var p := PageOf(s, ptr);
            p in s.owner && p in s.metas && p in s.free && FreeInv(Pushed(s, p, ptr, refcount), p)
  {
    LivePage(s, ptr);
    var p := PageOf(s, ptr);
    var r := Pushed(s, p, ptr, refcount);
    var q := s.free[p];
    assert ptr !in q;
    ListKept(s.mem, r.mem, s.metas[p].freeHead, q);
    assert ([ptr] + q)[1..] == q;
    assert forall a :: IsObject(r, p, s.owner[p], a) <==> IsObject(s, p, s.owner[p], a);
    hide IsObject, Inv, PageInv;
  }

  lemma PushedLive(s: Slub, ptr: nat, refcount: nat)
    requires Inv(s) && ptr in s.live
    ensures var p := PageOf(s, ptr);
            && p in s.owner && p in s.metas && p in s.free
            && var r := Pushed(s, p, ptr, refcount);
               && LiveIn(r, p) == LiveIn(s, p) - {ptr} && ptr in LiveIn(s, p)
               && (forall a | a in LiveIn(r, p) :: IsObject(r, p, s.owner[p], a) && r.live[a] == s.owner[p])
               && (Cached(r, p) <==> Cached(s, p))
  {
    LivePage(s, ptr);
    var p := PageOf(s, ptr);
    var r := Pushed(s, p, ptr, refcount);
    assert forall l, j :: InSlot(r, p, l, j) <==> InSlot(s, p, l, j);
    assert forall a :: IsObject(r, p, s.owner[p], a) <==> IsObject(s, p, s.owner[p], a);
    assert forall a :: PageOf(r, a) == PageOf(s, a);
    hide IsObject, PageOf, Inv, FreeInv;
  }

  /** A page that keeps a reference keeps its invariant, recached or not. */
  lemma PushedOwn(s: Slub, ptr: nat)
    requires Inv(s) && ptr in s.live && PageOf(s, ptr) in s.metas && s.metas[PageOf(s, ptr)].refcount > 1
    ensures var p := PageOf(s, ptr);
            p in s.owner && p in s.metas && p in s.free && PageInv(Pushed(s, p, ptr, s.metas[p].refcount - 1), p)
  {
    LivePage(s, ptr);
    var p := PageOf(s, ptr);
    PushedFree(s, ptr, s.metas[p].refcount - 1);
    PushedLive(s, ptr, s.metas[p].refcount - 1);
    hide IsObject, FreeInv, Inv, Cached, LiveIn;
  }

  lemma PushedGrounds(s: Slub, ptr: nat, refcount: nat)
    requires Inv(s) && ptr in s.live
    ensures var p := PageOf(s, ptr);
            && p in s.owner && p in s.metas && p in s.free
            && var r := Pushed(s, p, ptr, refcount);
               Grounds(r) && SlotsInv(r)
  {
    LivePage(s, ptr);
    var r := Pushed(s, PageOf(s, ptr), ptr, refcount);
    assert forall a :: PageOf(r, a) == PageOf(s, a);
    assert forall q, l, j :: InSlot(r, q, l, j) <==> InSlot(s, q, l, j);
    hide PageInv, PageOf;
  }

  lemma PushedInv(s: Slub, ptr: nat)
    requires Inv(s) && ptr in s.live && PageOf(s, ptr) in s.metas && s.metas[PageOf(s, ptr)].refcount > 1
    ensures var p := PageOf(s, ptr);
            p in s.metas && p in s.free && Inv(Pushed(s, p, ptr, s.metas[p].refcount - 1))
  {
    var p := PageOf(s, ptr);
    PushedOwn(s, ptr);
    PushedGrounds(s, ptr, s.metas[p].refcount - 1);
    var r := Pushed(s, p, ptr, s.metas[p].refcount - 1);
    hide PageInv, PageFrame, Grounds, SlotsInv;
    forall x | x in r.owner ensures PageInv(r, x) || (x in s.owner && PageFrame(s, r, x)) {
      if x != p { PushedOther(s, p, ptr, s.metas[p].refcount - 1, x); }
    }
    Rebuild(s, r);
  }

  /** A page whose last reference goes: no live object is left in it and no slot names it. */
  lemma LastReference(s: Slub, ptr: nat)
    requires Inv(s) && ptr in s.live && PageOf(s, ptr) in s.metas && s.metas[PageOf(s, ptr)].refcount == 1
    ensures LiveIn(s, PageOf(s, ptr)) == {ptr} && !Cached(s, PageOf(s, ptr))
  {
    LivePage(s, ptr);
    hide Inv, FreeInv, IsObject, Cached;
    var live := LiveIn(s, PageOf(s, ptr));
    assert |live - {ptr}| == |live| - 1;
    assert live - {ptr} == {};
  }

  lemma FreedGrounds(s: Slub, ptr: nat)
    requires Inv(s) && ptr in s.live && PageOf(s, ptr) in s.metas && s.metas[PageOf(s, ptr)].refcount == 1
    ensures var p := PageOf(s, ptr);
            && p in s.free
            && var r := FreePage(Pushed(s, p, ptr, 0), p);
               Grounds(r) && SlotsInv(r)
  {
    LivePage(s, ptr);
    LastReference(s, ptr);
    var p := PageOf(s, ptr);
    PushedGrounds(s, ptr, 0);
    var r0 := Pushed(s, p, ptr, 0);
    var r := FreePage(r0, p);
    hide PageInv, Inv;
    assert forall q, l, j :: InSlot(r, q, l, j) <==> InSlot(r0, q, l, j);
    assert forall l, j :: !InSlot(s, p, l, j);
    assert forall q, l, j :: InSlot(r0, q, l, j) <==> InSlot(s, q, l, j);
    forall a | a in r.live ensures a >= r.base && PageOf(r, a) in r.owner {
      assert a in s.live && a != ptr;
      assert PageOf(s, a) == p ==> a in LiveIn(s, p);
    }
  }

  lemma FreedInv(s: Slub, ptr: nat)
    requires Inv(s) && ptr in s.live && PageOf(s, ptr) in s.metas && s.metas[PageOf(s, ptr)].refcount == 1
    ensures var p := PageOf(s, ptr); p in s.free && Inv(FreePage(Pushed(s, p, ptr, 0), p))
  {
    var p := PageOf(s, ptr);
    FreedGrounds(s, ptr);
    var r := FreePage(Pushed(s, p, ptr, 0), p);
    hide PageInv, PageFrame, Grounds, SlotsInv;
    forall x | x in r.owner ensures PageInv(r, x) || (x in s.owner && PageFrame(s, r, x)) {
      FreedOther(s, p, ptr, x);
    }
    Rebuild(s, r);
  }

  // ---- cache slots

  /** Rewriting a slot and the reference count of one page leaves every other page alone. */
  lemma SlotOther(s: Slub, r: Slub, k: nat, ci: nat, v: nat, p: nat, x: nat)
    requires Inv(s) && k in s.caches && ci < |s.caches[k]| && x in s.owner && x != p
    requires s.caches[k][ci] == 0 || s.caches[k][ci] == p
    requires v == 0 || v == p
    requires r == SetSlot(s, k, ci, v).(metas := r.metas, frames := r.frames, owner := r.owner, free := r.free)
    requires x in r.metas && x in s.metas && r.metas[x] == s.metas[x] && x !in r.frames
    requires x in r.owner && r.owner[x] == s.owner[x] && x in s.free && x in r.free && r.free[x] == s.free[x]
    ensures PageFrame(s, r, x)
  {
    SlotWritten(s, r, k, ci, v);
    assert forall l, j :: InSlot(r, x, l, j) <==> InSlot(s, x, l, j);
    assert LiveIn(r, x) == LiveIn(s, x);
  }

  /** An uncached page with a free object goes into an empty slot and gains a reference. */
  lemma CacheInv(s: Slub, k: nat, ci: nat, p: nat)
    requires Inv(s) && k in s.caches && ci < CLASSES && s.caches[k][ci] == 0
    requires p in s.owner && s.owner[p] == ci && p in s.free && s.free[p] != [] && !Cached(s, p) && p in s.metas
    ensures Inv(SetSlot(SetMeta(s, p, s.metas[p].(refcount := s.metas[p].refcount + 1)), k, ci, p))
  {
    var r := SetSlot(SetMeta(s, p, s.metas[p].(refcount := s.metas[p].refcount + 1)), k, ci, p);
    assert PageInv(s, p);
    SlotWritten(s, r, k, ci, p);
    assert InSlot(r, p, k, ci);
    assert LiveIn(r, p) == LiveIn(s, p);
    assert FreeInv(r, p) by {
      assert forall a :: IsObject(r, p, ci, a) <==> IsObject(s, p, ci, a);
      hide IsObject;
    }
    assert PageInv(r, p) by { hide FreeInv, Inv; }
    assert forall l, j :: !InSlot(s, p, l, j);
    assert Grounds(r) && SlotsInv(r) by { hide PageInv, FreeInv; }
    forall x | x in r.owner ensures PageInv(r, x) || (x in s.owner && PageFrame(s, r, x)) {
      if x != p {
        assert PageInv(s, x);
        SlotOther(s, r, k, ci, p, p, x);
      }
    }
    hide PageInv, PageFrame, Grounds, SlotsInv;
    Rebuild(s, r);
  }

  function Uncached(s: Slub, k: nat, ci: nat): Slub
    requires k in s.caches && ci < |s.caches[k]| && s.caches[k][ci] in s.metas
  {
    SetSlot(DropRef(s, s.caches[k][ci]), k, ci, 0)
  }

  lemma UncachedOwn(s: Slub, k: nat, ci: nat)
    requires Poppable(s, k, ci) && s.caches[k][ci] in s.metas && s.metas[s.caches[k][ci]].refcount > 1
    ensures var p := s.caches[k][ci]; p in s.owner && PageInv(Uncached(s, k, ci), p)
  {
    CachedPageHasObject(s, k, ci);
    var p, r := s.caches[k][ci], Uncached(s, k, ci);
    SlotWritten(s, r, k, ci, 0);
    assert !Cached(r, p);
    assert LiveIn(r, p) == LiveIn(s, p);
    assert FreeInv(r, p) by {
      assert forall a :: IsObject(r, p, ci, a) <==> IsObject(s, p, ci, a);
      hide IsObject;
    }
    hide FreeInv, Inv;
  }

  lemma UncachedGrounds(s: Slub, k: nat, ci: nat)
    requires Poppable(s, k, ci) && s.caches[k][ci] in s.metas
    ensures Grounds(Uncached(s, k, ci)) && SlotsInv(Uncached(s, k, ci))
  {
    CachedPageHasObject(s, k, ci);
    var p, r := s.caches[k][ci], Uncached(s, k, ci);
    SlotWritten(s, r, k, ci, 0);
    if s.metas[p].refcount == 1 {
      assert LiveIn(s, p) == {};
      forall a | a in s.live ensures PageOf(s, a) != p { assert PageOf(s, a) == p ==> a in LiveIn(s, p); }
    }
    assert forall a :: PageOf(r, a) == PageOf(s, a);
    hide PageInv, FreeInv, PageOf;
  }

  /** Emptying a slot: the page lives on while objects of it do, and is freed otherwise. */
  lemma UncacheInv(s: Slub, k: nat, ci: nat)
    requires Poppable(s, k, ci) && s.caches[k][ci] in s.metas
    ensures Inv(Uncached(s, k, ci))
  {
    CachedPageHasObject(s, k, ci);
    UncachedGrounds(s, k, ci);
    var p, r := s.caches[k][ci], Uncached(s, k, ci);
    if s.metas[p].refcount > 1 { UncachedOwn(s, k, ci); }
    hide FreeInv, Grounds, SlotsInv;
    forall x | x in r.owner ensures PageInv(r, x) || (x in s.owner && PageFrame(s, r, x)) {
      if x != p {
        assert PageInv(s, x);
        SlotOther(s, r, k, ci, 0, p, x);
      }
    }
    hide PageInv, PageFrame;
    Rebuild(s, r);
  }

  // ---- the operations

  /** The frame allocator hands out free frames, and the one this call would use is not frame 0. */
  ghost predicate Suppliable(s: Slub, k: nat, ci: nat, supply: seq<nat>) {
    && (forall p | p in supply :: p in s.frames)
    && (k in s.caches && ci < |s.caches[k]| && s.caches[k][ci] == 0 && supply != [] ==> supply[0] != 0)
  }

  /** `alloc` never meets an exhausted cached page: it pops, after at most one fresh page. */
  lemma AllocIs(s: Slub, k: nat, ci: nat, supply: seq<nat>)
    requires Inv(s) && k in s.caches && ci < CLASSES
    requires Suppliable(s, k, ci, supply)
    ensures (forall p | p in supply :: p in s.metas) && |s.caches[k]| == CLASSES
    ensures var empty := s.caches[k][ci] == 0;
            var s1 := if empty && supply != [] then NewPage(s, k, ci, supply[0]) else s;
            && Inv(s1) && Tracked(s1) && k in s1.caches && |s1.caches[k]| == CLASSES
            && (empty && supply == [] ==> Alloc(s, k, ci, supply) == (s, None))
            && (!empty || supply != [] ==>
                  && s1.caches[k][ci] != 0
                  && Alloc(s, k, ci, supply) == (PopObject(s1, k, ci).0, Some(PopObject(s1, k, ci).1)))
  {
    var empty := s.caches[k][ci] == 0;
    if empty && supply != [] {
      assert supply[0] in supply;
      NewPageInv(s, k, ci, supply[0]);
      AllocPops(NewPage(s, k, ci, supply[0]), k, ci, supply[1..]);
    } else if !empty {
      AllocPops(s, k, ci, supply);
    }
  }

  lemma AllocPops(s: Slub, k: nat, ci: nat, supply: seq<nat>)
    requires Poppable(s, k, ci) && (forall p | p in supply :: p in s.metas)
    ensures Alloc(s, k, ci, supply) == (PopObject(s, k, ci).0, Some(PopObject(s, k, ci).1))
  {
    CachedPageHasObject(s, k, ci);
  }

  lemma AllocInv(s: Slub, k: nat, ci: nat, supply: seq<nat>)
    requires Inv(s) && k in s.caches && ci < CLASSES
    requires Suppliable(s, k, ci, supply)
    ensures (forall p | p in supply :: p in s.metas) && Inv(Alloc(s, k, ci, supply).0)
  {
    AllocIs(s, k, ci, supply);
    var empty := s.caches[k][ci] == 0;
    var s1 := if empty && supply != [] then NewPage(s, k, ci, supply[0]) else s;
    if !empty || supply != [] { PopInv(s1, k, ci); }
  }

  lemma PopPromise(s: Slub, k: nat, ci: nat)
    requires Poppable(s, k, ci)
    ensures var (r, obj) := PopObject(s, k, ci);
            && obj !in s.live && r.live == s.live[obj := ci]
            && IsObject(s, PageOf(s, obj), ci, obj)
            && PageOf(s, obj) in r.owner && r.owner[PageOf(s, obj)] == ci
  {
    CachedPageHasObject(s, k, ci);
    PopIs(s, k, ci);
    PopLive(s, k, ci);
    ObjectPage(s, s.caches[k][ci], ci, PopObject(s, k, ci).1);
    hide Inv, FreeInv, IsObject;
  }

  /**
   What `alloc` promises: an object nobody holds, at an address that fits its class, now live and nothing else
   changed hands; and it fails only when a fresh page is needed and there is none.
   */
  lemma AllocPromise(s: Slub, k: nat, ci: nat, supply: seq<nat>)
    requires Inv(s) && k in s.caches && ci < CLASSES
    requires Suppliable(s, k, ci, supply)
    ensures (forall p | p in supply :: p in s.metas) && |s.caches[k]| == CLASSES
    ensures var (r, obj) := Alloc(s, k, ci, supply);
            && (obj == None <==> s.caches[k][ci] == 0 && supply == [])
            && (obj.Some? ==>
                  && obj.value !in s.live && r.live == s.live[obj.value := ci]
                  && IsObject(s, PageOf(s, obj.value), ci, obj.value)
                  && PageOf(s, obj.value) in r.owner && r.owner[PageOf(s, obj.value)] == ci)
  {
    hide NewPage, PopObject, DropRef, SetSlot, Inv, IsObject, PageOf;
    AllocIs(s, k, ci, supply);
    var empty := s.caches[k][ci] == 0;
    if !empty {
      PopPromise(s, k, ci);
    } else if supply != [] {
      var s1 := NewPage(s, k, ci, supply[0]);
      NewPageSame(s, k, ci, supply[0], PopObject(s1, k, ci).1);
      PopPromise(s1, k, ci);
    }
  }

  lemma NewPageSame(s: Slub, k: nat, ci: nat, p: nat, a: nat)
    requires k in s.caches && ci < |s.caches[k]| && ci < CLASSES
    ensures var r := NewPage(s, k, ci, p);
            && r.live == s.live && PageOf(r, a) == PageOf(s, a)
            && (IsObject(r, PageOf(s, a), ci, a) <==> IsObject(s, PageOf(s, a), ci, a))
  {
  }

  lemma DeallocInv(s: Slub, k: nat, ci: nat, ptr: nat)
    requires Returnable(s, k, ci, ptr)
    ensures Inv(Dealloc(s, k, ci, ptr))
  {
    DeallocIs(s, k, ci, ptr);
    LivePage(s, ptr);
    var p := PageOf(s, ptr);
    var rc := s.metas[p].refcount;
    if rc == 1 {
      FreedInv(s, ptr);
    } else {
      PushedInv(s, ptr);
      if Recaches(s, k, ci, p) {
        PushedLive(s, ptr, rc - 1);
        var s1 := Pushed(s, p, ptr, rc - 1);
        assert s.free[p] == [];
        CacheInv(s1, k, ci, p);
        assert s1.metas[p := Meta(ptr, rc)] == s.metas[p := Meta(ptr, rc)];
      }
    }
  }

  /**
   Returning an object: it alone stops being live, only its own word of memory is written, and its page's frame goes
   back exactly when this was the page's last reference.
   */
  lemma DeallocPromise(s: Slub, k: nat, ci: nat, ptr: nat)
    requires Returnable(s, k, ci, ptr)
    ensures var r, p := Dealloc(s, k, ci, ptr), PageOf(s, ptr);
            && r.live == s.live - {ptr}
            && (forall a | a != ptr :: Load(r.mem, a) == Load(s.mem, a))
            && r.frames == (if LiveIn(s, p) == {ptr} && !Cached(s, p) then s.frames + {p} else s.frames)
  {
    DeallocIs(s, k, ci, ptr);
    LivePage(s, ptr);
    var p := PageOf(s, ptr);
    if s.metas[p].refcount == 1 {
      LastReference(s, ptr);
    } else {
      assert PageInv(s, p);
    }
  }

  /** The object returned last is the first handed out again, as long as its page is in the cache slot. */
  lemma LastFreedFirst(s: Slub, k: nat, ci: nat, ptr: nat, supply: seq<nat>)
    requires Returnable(s, k, ci, ptr) && (forall p | p in supply :: p in Dealloc(s, k, ci, ptr).metas)
    ensures var r := Dealloc(s, k, ci, ptr);
            && Inv(r) && k in r.caches && |r.caches[k]| == CLASSES
            && (r.caches[k][ci] == PageOf(s, ptr) != 0 ==> Alloc(r, k, ci, supply).1 == Some(ptr))
  {
    DeallocIs(s, k, ci, ptr);
    DeallocInv(s, k, ci, ptr);
    LivePage(s, ptr);
    var r, p := Dealloc(s, k, ci, ptr), PageOf(s, ptr);
    hide Dealloc, Inv;
    SlotHeads(s, k, ci, ptr, r);
    if r.caches[k][ci] == p != 0 {
      AllocPops(r, k, ci, supply);
    }
  }

  lemma SlotHeads(s: Slub, k: nat, ci: nat, ptr: nat, r: Slub)
    requires Returnable(s, k, ci, ptr) && r == Dealloc(s, k, ci, ptr) && Inv(r)
    ensures k in r.caches && |r.caches[k]| == CLASSES && Tracked(r)
    ensures r.caches[k][ci] == PageOf(s, ptr) != 0 ==>
              PageOf(s, ptr) in r.metas && r.metas[PageOf(s, ptr)].freeHead == ptr
  {
    DeallocIs(s, k, ci, ptr);
    var p := PageOf(s, ptr);
    if s.metas[p].refcount == 1 && r.caches[k][ci] == p != 0 {
      assert InSlot(r, p, k, ci);
    }
  }

  lemma {:induction false} ReleaseInv(s: Slub, k: nat, i: nat)
    requires Inv(s) && k in s.caches && i <= CLASSES
    ensures Inv(Release(s, k, i)) && Release(s, k, i).live == s.live && k in Release(s, k, i).caches
    ensures |s.caches[k]| == CLASSES == |Release(s, k, i).caches[k]|
    ensures forall j | 0 <= j < CLASSES ::
              Release(s, k, i).caches[k][j] == if j < i then s.caches[k][j] else 0
    decreases CLASSES - i
  {
    if i < CLASSES {
      if s.caches[k][i] == 0 {
        ReleaseInv(s, k, i + 1);
      } else {
        UncacheInv(s, k, i);
        UncachedSlots(s, k, i);
        hide Inv, DropRef;
        ReleaseInv(Uncached(s, k, i), k, i + 1);
      }
    }
  }

  lemma UncachedSlots(s: Slub, k: nat, i: nat)
    requires k in s.caches && i < |s.caches[k]| && s.caches[k][i] in s.metas
    ensures var r := Uncached(s, k, i);
            && r.live == s.live && k in r.caches && |r.caches[k]| == |s.caches[k]|
            && forall j | 0 <= j < |s.caches[k]| :: r.caches[k][j] == if j == i then 0 else s.caches[k][j]
  {
  }
}
