/**
 The SLUB allocator of kernel/src/memory/slab.rs: free lists threaded through page memory, reference counts and
 per-CPU cache slots. Each `alloc`, `dealloc` and `release` is one atomic step, as under the bootstrap lock.
 */
module Slub {
  import opened Prelude

  const PAGE_SIZE: nat := 4096
  const CLASSES: nat := 9
  const SIZE_CLASSES: seq<nat> := [8, 16, 32, 64, 128, 256, 512, 1024, 2048]

  /** `SlubPageMeta`. */
  datatype Meta = Meta(freeHead: nat, refcount: nat)

  /**
   `base` is where physical address 0 is mapped. `mem` holds the words the allocator and its users have written.
   `frames` is the set of free page frames. The last three fields record what the allocator has promised:
   which objects are live and of which class, which pages are slab pages of which class, and each page's free list.
   */
  datatype Slub = Slub(
    base: nat,
    mem: map<nat, nat>,
    metas: map<nat, Meta>,
    caches: map<nat, seq<nat>>,
    frames: set<nat>,
    live: map<nat, nat>,
    owner: map<nat, nat>,
    free: map<nat, seq<nat>>)

  function Load(mem: map<nat, nat>, a: nat): nat {
    if a in mem then mem[a] else 0
  }

  function PageOf(s: Slub, a: nat): nat {
    if a < s.base then 0 else (a - s.base) / PAGE_SIZE * PAGE_SIZE
  }

  /** `class_index`: the first class that fits both size and alignment. */
  function ClassIndex(size: nat, align: nat): (r: Option<nat>)
    ensures r.Some? ==> r.value < CLASSES && size <= SIZE_CLASSES[r.value] && align <= SIZE_CLASSES[r.value]
    ensures r.Some? ==> forall i | 0 <= i < r.value :: SIZE_CLASSES[i] < size || SIZE_CLASSES[i] < align
    ensures r.Some? <==> size <= 2048 && align <= 2048
  {
    FirstFit(Max(Max(size, align), 8), 0)
  }

  function FirstFit(needed: nat, i: nat): (r: Option<nat>)
    requires i <= CLASSES && forall j | 0 <= j < i :: SIZE_CLASSES[j] < needed
    ensures r.Some? <==> needed <= 2048
    ensures r.Some? ==> r.value < CLASSES && needed <= SIZE_CLASSES[r.value]
    ensures r.Some? ==> forall j | 0 <= j < r.value :: SIZE_CLASSES[j] < needed
    decreases CLASSES - i
  {
    if i == CLASSES then
      assert SIZE_CLASSES[8] == 2048;
      None
    else if needed <= SIZE_CLASSES[i] then Some(i)
    else FirstFit(needed, i + 1)
  }

  // ---- pieces

  function SetSlot(s: Slub, k: nat, ci: nat, p: nat): Slub
    requires k in s.caches && ci < |s.caches[k]|
  {
    var slots: seq<nat> := s.caches[k][ci := p];
    s.(caches := s.caches[k := slots])
  }

  function SetMeta(s: Slub, p: nat, m: Meta): Slub {
    s.(metas := s.metas[p := m])
  }

  /** `free_page`. */
  function FreePage(s: Slub, p: nat): Slub {
    SetMeta(s, p, Meta(0, 0)).(frames := s.frames + {p}, owner := s.owner - {p}, free := s.free - {p})
  }

  /** `release_cache_reference`. */
  function DropRef(s: Slub, p: nat): Slub
    requires p in s.metas
  {
    var m := s.metas[p];
    if m.refcount == 1 then FreePage(s, p)
    else SetMeta(s, p, m.(refcount := if m.refcount == 0 then 0xFFFF_FFFF_FFFF_FFFF else m.refcount - 1))
  }

  /** The address of object i. */
  function At(start: nat, size: nat, i: nat): nat {
    start + i * size
  }

  /** `initialize_page`: thread objects index-1, ..., 0 onto the list, last object first. */
  function Thread(mem: map<nat, nat>, start: nat, size: nat, index: nat, head: nat): (map<nat, nat>, nat)
    decreases index
  {
    if index == 0 then (mem, head)
    else
      var obj := At(start, size, index - 1);
      Thread(mem[obj := head], start, size, index - 1, obj)
  }

  /** Objects i, i+1, ..., n-1 of a page. */
  function Objects(start: nat, size: nat, i: nat, n: nat): (q: seq<nat>)
    requires i <= n
    ensures |q| == n - i && forall j | 0 <= j < |q| :: q[j] == At(start, size, i + j)
    decreases n - i
  {
    if i == n then [] else [At(start, size, i)] + Objects(start, size, i + 1, n)
  }

  function Count(ci: nat): nat
    requires ci < CLASSES
  {
    PAGE_SIZE / SIZE_CLASSES[ci]
  }

  /** A frame becomes the cached page of a class. */
  function NewPage(s: Slub, k: nat, ci: nat, p: nat): Slub
    requires k in s.caches && ci < |s.caches[k]| && ci < CLASSES
  {
    var (mem, head) := Thread(s.mem, s.base + p, SIZE_CLASSES[ci], Count(ci), 0);
    SetSlot(SetMeta(s, p, Meta(head, 1)), k, ci, p)
      .(mem := mem, frames := s.frames - {p}, owner := s.owner[p := ci],
        free := s.free[p := Objects(s.base + p, SIZE_CLASSES[ci], 0, Count(ci))])
  }

  /** Every page the code looks up has metadata: `meta_for_phys(..).expect(..)` does not fail. */
  ghost predicate Tracked(s: Slub) {
    && (forall p | p in s.frames :: p in s.metas)
    && (forall k | k in s.caches :: |s.caches[k]| == CLASSES)
    && (forall k, i | k in s.caches && 0 <= i < |s.caches[k]| && s.caches[k][i] != 0 :: s.caches[k][i] in s.metas)
  }

  function PopObject(s: Slub, k: nat, ci: nat): (Slub, nat)
    requires Tracked(s) && k in s.caches && ci < CLASSES && s.caches[k][ci] != 0
  {
    var p := s.caches[k][ci];
    var m := s.metas[p];
    var head := m.freeHead;
    var next := Load(s.mem, head);
    var s1 := SetMeta(s, p, Meta(next, m.refcount + 1))
      .(live := s.live[head := ci], free := s.free[p := if p in s.free && s.free[p] != [] then s.free[p][1..] else []]);
    (if next == 0 then DropRef(SetSlot(s1, k, ci, 0), p) else s1, head)
  }

  /**
   `alloc` on cache k. `supply` is what the frame allocator will hand out, in order; when it runs dry the
   allocator is out of memory.
   */
  function Alloc(s: Slub, k: nat, ci: nat, supply: seq<nat>): (Slub, Option<nat>)
    requires Tracked(s) && k in s.caches && ci < CLASSES && (forall p | p in supply :: p in s.metas)
    decreases |supply|, if s.caches[k][ci] == 0 then 0 else 1
  {
    var p := s.caches[k][ci];
    if p == 0 then
      if supply == [] then (s, None) else Alloc(NewPage(s, k, ci, supply[0]), k, ci, supply[1..])
    else if s.metas[p].freeHead == 0 then
      Alloc(DropRef(SetSlot(s, k, ci, 0), p), k, ci, supply)
    else
      var (s1, obj) := PopObject(s, k, ci);
      (s1, Some(obj))
  }

  /** `dealloc` on cache k of an object of class ci. */
  function Dealloc(s: Slub, k: nat, ci: nat, ptr: nat): Slub
    requires Tracked(s) && k in s.caches && ci < CLASSES
  {
    var p := PageOf(s, ptr);
    if ptr < s.base || p !in s.metas then s
    else
      var m := s.metas[p];
      var s1 := s.(mem := s.mem[ptr := m.freeHead], live := s.live - {ptr},
                   free := s.free[p := [ptr] + (if p in s.free then s.free[p] else [])]);
      var s2 := DropRef(SetMeta(s1, p, m.(freeHead := ptr)), p);
      if m.refcount != 1 && m.freeHead == 0 && s.caches[k][ci] == 0
      then SetSlot(SetMeta(s2, p, m.(freeHead := ptr)), k, ci, p)
      else s2
  }

  /** `release`: give back every cached page of cache k. */
  function Release(s: Slub, k: nat, i: nat): Slub
    requires Tracked(s) && k in s.caches && i <= CLASSES
    decreases CLASSES - i
  {
    if i == CLASSES then s
    else if s.caches[k][i] == 0 then Release(s, k, i + 1)
    else Release(SetSlot(DropRef(s, s.caches[k][i]), k, i, 0), k, i + 1)
  }
}
