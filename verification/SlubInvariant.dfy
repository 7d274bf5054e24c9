/** What every run of the SLUB allocator keeps, page by page. */
module SlubInvariant {
  import opened Prelude
  import opened Arithmetic
  import opened Slub

  /** The list that starts at `head` and follows the words in memory is q, and it ends in null. */
  ghost predicate IsList(mem: map<nat, nat>, head: nat, q: seq<nat>)
    decreases |q|
  {
    if q == [] then head == 0
    else head == q[0] && head != 0 && IsList(mem, Load(mem, head), q[1..])
  }

  /** a is the address of an object slot of class ci in page p. */
  predicate IsObject(s: Slub, p: nat, ci: nat, a: nat) {
    ci < CLASSES && s.base + p <= a < s.base + p + PAGE_SIZE && (a - s.base - p) % SIZE_CLASSES[ci] == 0
  }

  ghost predicate InSlot(s: Slub, p: nat, k: nat, i: nat) {
    p != 0 && k in s.caches && i < |s.caches[k]| && s.caches[k][i] == p
  }

  ghost predicate Cached(s: Slub, p: nat) {
    exists k, i :: InSlot(s, p, k, i)
  }

  ghost function LiveIn(s: Slub, p: nat): set<nat> {
    set a | a in s.live && PageOf(s, a) == p
  }

  /** The free list of a page is a proper list of the objects that are not live. */
  ghost predicate FreeInv(s: Slub, p: nat)
    requires p in s.owner && p in s.free && p in s.metas
  {
    var ci, q := s.owner[p], s.free[p];
    && IsList(s.mem, s.metas[p].freeHead, q)
    && NoDup(q)
    && (forall a | a in q :: IsObject(s, p, ci, a) && a !in s.live)
    && (forall a | IsObject(s, p, ci, a) :: a in q || a in s.live)
  }

  ghost predicate PageInv(s: Slub, p: nat)
    requires p in s.owner
  {
    && s.owner[p] < CLASSES && p in s.free && p in s.metas
    && p % PAGE_SIZE == 0 && p != 0 && p !in s.frames
    && FreeInv(s, p)
    && (forall a | a in LiveIn(s, p) :: IsObject(s, p, s.owner[p], a) && s.live[a] == s.owner[p])
    && s.metas[p].refcount == |LiveIn(s, p)| + (if Cached(s, p) then 1 else 0)
    && s.metas[p].refcount > 0
    && (Cached(s, p) ==> s.free[p] != [])
  }

  ghost predicate SlotsInv(s: Slub) {
    && (forall p, k, i | InSlot(s, p, k, i) :: p in s.owner && s.owner[p] == i)
    && (forall p, k, i, l, j | InSlot(s, p, k, i) && InSlot(s, p, l, j) :: k == l && i == j)
  }

  ghost predicate Grounds(s: Slub) {
    && s.base % PAGE_SIZE == 0 && s.base > 0
    && Tracked(s)
    && (forall p | p in s.frames :: p % PAGE_SIZE == 0 && p !in s.owner)
    && (forall a | a in s.live :: a >= s.base && PageOf(s, a) in s.owner)
  }

  ghost predicate Inv(s: Slub) {
    && Grounds(s) && SlotsInv(s)
    && (forall p {:trigger PageInv(s, p)} | p in s.owner :: PageInv(s, p))
  }

  // ---- arithmetic of pages and objects

  lemma ObjectPage(s: Slub, p: nat, ci: nat, a: nat)
    requires IsObject(s, p, ci, a) && p % PAGE_SIZE == 0
    ensures a >= s.base && PageOf(s, a) == p
  {
  }

  // ---- what a step leaves alone

  lemma {:induction false} ListKept(mem: map<nat, nat>, after: map<nat, nat>, head: nat, q: seq<nat>)
    requires IsList(mem, head, q) && forall a | a in q :: Load(after, a) == Load(mem, a)
    ensures IsList(after, head, q)
    decreases |q|
  {
    if q != [] {
      assert q[0] in q;
      ListKept(mem, after, Load(mem, head), q[1..]);
    }
  }

  ghost predicate PageFrame(s: Slub, r: Slub, p: nat)
    requires p in s.owner
  {
    && r.base == s.base && p in r.owner && r.owner[p] == s.owner[p] && p !in r.frames
    && p in s.free && p in r.free && r.free[p] == s.free[p]
    && p in s.metas && p in r.metas && r.metas[p] == s.metas[p]
    && (Cached(r, p) <==> Cached(s, p))
    && LiveIn(r, p) == LiveIn(s, p) && (forall a | a in LiveIn(s, p) :: r.live[a] == s.live[a])
    && (forall a | a in s.free[p] :: Load(r.mem, a) == Load(s.mem, a))
  }

  lemma LiveKept(s: Slub, r: Slub, p: nat, a: nat)
    requires p in s.owner && PageFrame(s, r, p) && IsObject(s, p, s.owner[p], a) && p % PAGE_SIZE == 0
    ensures a in s.live <==> a in r.live
  {
    ObjectPage(s, p, s.owner[p], a);
    hide IsObject;
    assert a in s.live <==> a in LiveIn(s, p);
    assert a in r.live <==> a in LiveIn(r, p);
  }

  lemma FreeKept(s: Slub, r: Slub, p: nat)
    requires p in s.owner && PageInv(s, p) && PageFrame(s, r, p)
    ensures FreeInv(r, p)
  {
    ListKept(s.mem, r.mem, s.metas[p].freeHead, s.free[p]);
    forall a | IsObject(s, p, s.owner[p], a) ensures a in s.live <==> a in r.live { LiveKept(s, r, p, a); }
    assert forall a :: IsObject(r, p, s.owner[p], a) <==> IsObject(s, p, s.owner[p], a);
    hide IsObject, LiveIn, IsList;
  }

  lemma PageKept(s: Slub, r: Slub, p: nat)
    requires p in s.owner && PageInv(s, p) && PageFrame(s, r, p)
    ensures PageInv(r, p)
  {
    hide FreeInv;
    FreeKept(s, r, p);
    assert forall a :: IsObject(r, p, s.owner[p], a) <==> IsObject(s, p, s.owner[p], a);
    hide IsObject;
  }

  // ---- a fresh page

  lemma AtOrder(start: nat, size: nat, i: nat, j: nat)
    requires i < j
    ensures start <= At(start, size, i) && At(start, size, i) + size <= At(start, size, j)
  {
    MulNonNegative(i, size);
    MulLess(size, i, j);
    Commute(i, size);
    Commute(j, size);
  }

  lemma Commute(a: int, b: int)
    ensures a * b == b * a
  {
  }

  lemma AtOffset(start: nat, size: nat, i: nat)
    requires size > 0
    ensures At(start, size, i) >= start && (At(start, size, i) - start) % size == 0
  {
    MulNonNegative(i, size);
    MultipleOf(size, i);
  }

  lemma ThreadFrame(mem: map<nat, nat>, start: nat, size: nat, index: nat, head: nat, a: nat)
    requires size > 0 && (a < start || a >= At(start, size, index) || (a - start) % size != 0)
    ensures Load(Thread(mem, start, size, index, head).0, a) == Load(mem, a)
    decreases index
  {
    if index > 0 {
      hide At;
      AtOrder(start, size, index - 1, index);
      AtOffset(start, size, index - 1);
      ThreadFrame(mem[At(start, size, index - 1) := head], start, size, index - 1, At(start, size, index - 1), a);
    }
  }

  /** Threading builds the list of all objects, in address order. */
  lemma {:induction false} ThreadBuilds(mem: map<nat, nat>, start: nat, size: nat, index: nat, n: nat, head: nat)
    requires start > 0 && size > 0 && index <= n && IsList(mem, head, Objects(start, size, index, n))
    ensures var (mem', head') := Thread(mem, start, size, index, head);
            IsList(mem', head', Objects(start, size, 0, n))
    decreases index
  {
    hide At;
    if index > 0 {
      var obj := At(start, size, index - 1);
      ThreadOne(mem, start, size, index, n, head);
      ThreadBuilds(mem[obj := head], start, size, index - 1, n, obj);
    }
  }

  lemma ThreadOne(mem: map<nat, nat>, start: nat, size: nat, index: nat, n: nat, head: nat)
    requires start > 0 && size > 0 && 0 < index <= n && IsList(mem, head, Objects(start, size, index, n))
    ensures var obj := At(start, size, index - 1);
            IsList(mem[obj := head], obj, Objects(start, size, index - 1, n))
  {
    hide At;
    var obj := At(start, size, index - 1);
    var q := Objects(start, size, index, n);
    ThreadMisses(mem, start, size, index, n, head);
    FirstObject(start, size, index, n);
    AtOffset(start, size, index - 1);
    hide Objects;
    ListKept(mem, mem[obj := head], head, q);
    ConsList(mem[obj := head], obj, head, q);
  }

  lemma ThreadMisses(mem: map<nat, nat>, start: nat, size: nat, index: nat, n: nat, head: nat)
    requires size > 0 && 0 < index <= n
    ensures forall a | a in Objects(start, size, index, n) ::
              Load(mem[At(start, size, index - 1) := head], a) == Load(mem, a)
  {
    hide At;
    var q := Objects(start, size, index, n);
    forall a | a in q ensures a != At(start, size, index - 1) {
      var j :| 0 <= j < |q| && q[j] == a;
      AtOrder(start, size, index - 1, index + j);
    }
  }

  lemma ConsList(mem: map<nat, nat>, a: nat, head: nat, q: seq<nat>)
    requires a != 0 && Load(mem, a) == head && IsList(mem, head, q)
    ensures IsList(mem, a, [a] + q)
  {
    assert ([a] + q)[1..] == q;
  }

  lemma FirstObject(start: nat, size: nat, index: nat, n: nat)
    requires 0 < index <= n
    ensures Objects(start, size, index - 1, n) == [At(start, size, index - 1)] + Objects(start, size, index, n)
  {
    hide At;
  }

  lemma ClassGeometry(ci: nat, start: nat)
    requires ci < CLASSES
    ensures SIZE_CLASSES[ci] > 0 && At(start, SIZE_CLASSES[ci], Count(ci)) == start + PAGE_SIZE && Count(ci) >= 2
  {
  }

  /** The slots of a page and the list of its objects are the same addresses. */
  lemma ObjectsAreSlots(s: Slub, p: nat, ci: nat, a: nat)
    requires ci < CLASSES
    ensures a in Objects(s.base + p, SIZE_CLASSES[ci], 0, Count(ci)) <==> IsObject(s, p, ci, a)
  {
    hide At, Count;
    var size, n, start := SIZE_CLASSES[ci], Count(ci), s.base + p;
    var q := Objects(start, size, 0, n);
    ClassGeometry(ci, start);
    if a in q {
      var j :| 0 <= j < |q| && q[j] == a;
      AtOffset(start, size, j);
      AtOrder(start, size, j, n);
    }
    if IsObject(s, p, ci, a) {
      var j := SlotIndex(start, size, n, a);
      assert q[j] == a;
    }
  }

  lemma SlotIndex(start: nat, size: nat, n: nat, a: nat) returns (j: nat)
    requires size > 0 && start <= a < At(start, size, n) && (a - start) % size == 0
    ensures j < n && At(start, size, j) == a
  {
    j := (a - start) / size;
    assert a - start == size * j;
    Commute(size, j);
    if n <= j {
      MulLe(size, n, j);
      Commute(size, n);
    }
  }

  lemma ObjectsDistinct(start: nat, size: nat, n: nat)
    requires size > 0
    ensures NoDup(Objects(start, size, 0, n))
  {
    hide At;
    var q := Objects(start, size, 0, n);
    forall i, j | 0 <= i < j < |q| ensures q[i] != q[j] {
      AtOrder(start, size, i, j);
    }
  }
}
