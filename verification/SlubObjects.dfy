/** The SLUB allocator as the kernel writes it, loops and all, proved equal to its functions. */
module SlubObjects {
  import opened Prelude
  import opened Slub

  class SlubRuntime {
    const base: nat
    var mem: map<nat, nat>
    var metas: map<nat, Meta>
    var caches: map<nat, seq<nat>>
    var frames: set<nat>
    ghost var live: map<nat, nat>
    ghost var owner: map<nat, nat>
    ghost var free: map<nat, seq<nat>>

    ghost function Value(): Slub
      reads this
    {
      Slub(base, mem, metas, caches, frames, live, owner, free)
    }

    /** Link the objects of a page, last one first, so that the list runs in address order. */
    method InitializePage(start: nat, size: nat, count: nat) returns (head: nat)
      modifies this`mem
      ensures (mem, head) == Thread(old(mem), start, size, count, 0)
    {
      head := 0;
      var index := count;
      while index > 0
        invariant Thread(mem, start, size, index, head) == Thread(old(mem), start, size, count, 0)
      {
        index := index - 1;
        var obj := At(start, size, index);
        mem := mem[obj := head];
        head := obj;
      }
    }

    method FreeSlabPage(p: nat)
      modifies this
      ensures Value() == FreePage(old(Value()), p)
    {
      metas := metas[p := Meta(0, 0)];
      frames := frames + {p};
      owner, free := owner - {p}, free - {p};
    }

    method ReleaseCacheReference(p: nat)
      requires p in metas
      modifies this
      ensures Value() == DropRef(old(Value()), p)
    {
      var m := metas[p];
      if m.refcount == 1 {
        FreeSlabPage(p);
      } else {
        metas := metas[p := m.(refcount := if m.refcount == 0 then 0xFFFF_FFFF_FFFF_FFFF else m.refcount - 1)];
      }
    }

    method StoreSlot(k: nat, ci: nat, p: nat)
      requires k in caches && ci < |caches[k]|
      modifies this`caches
      ensures Value() == SetSlot(old(Value()), k, ci, p)
    {
      var slots: seq<nat> := caches[k][ci := p];
      caches := caches[k := slots];
    }

    method TakeFreshPage(k: nat, ci: nat, p: nat)
      requires k in caches && ci < |caches[k]| && ci < CLASSES
      modifies this
      ensures Value() == NewPage(old(Value()), k, ci, p)
    {
      ghost var s := Value();
      frames := frames - {p};
      var head := InitializePage(base + p, SIZE_CLASSES[ci], Count(ci));
      metas := metas[p := Meta(head, 1)];
      StoreSlot(k, ci, p);
      owner, free := owner[p := ci], free[p := Objects(base + p, SIZE_CLASSES[ci], 0, Count(ci))];
    }

    method TakeObject(k: nat, ci: nat) returns (obj: nat)
      requires Tracked(Value()) && k in caches && ci < CLASSES && caches[k][ci] != 0
      modifies this
      ensures (Value(), obj) == PopObject(old(Value()), k, ci)
    {
      var p := caches[k][ci];
      var m := metas[p];
      obj := m.freeHead;
      var next := Load(mem, obj);
      metas := metas[p := Meta(next, m.refcount + 1)];
      live, free := live[obj := ci], free[p := if p in free && free[p] != [] then free[p][1..] else []];
      if next == 0 {
        StoreSlot(k, ci, 0);
        ReleaseCacheReference(p);
      }
    }

    method DropExhausted(k: nat, ci: nat)
      requires Tracked(Value()) && k in caches && ci < CLASSES && caches[k][ci] != 0
      modifies this
      ensures Value() == DropRef(SetSlot(old(Value()), k, ci, 0), old(caches)[k][ci])
      ensures Tracked(Value()) && k in caches && caches[k][ci] == 0 && metas.Keys >= old(metas).Keys
    {
      var p := caches[k][ci];
      StoreSlot(k, ci, 0);
      ReleaseCacheReference(p);
    }

    /** `supply` lists the frames the frame allocator will hand out; running past its end is out of memory. */
    method AllocObject(k: nat, ci: nat, supply: seq<nat>) returns (result: Option<nat>)
      requires Tracked(Value()) && k in caches && ci < CLASSES && (forall p | p in supply :: p in metas)
      modifies this
      ensures (Value(), result) == Alloc(old(Value()), k, ci, supply)
    {
      hide DropRef, PopObject;
      ghost var s := Value();
      var used := 0;
      while true
        invariant 0 <= used <= |supply|
        invariant Tracked(Value()) && k in caches && forall p | p in supply :: p in metas
        invariant Alloc(Value(), k, ci, supply[used..]) == Alloc(s, k, ci, supply)
        decreases |supply| - used, if caches[k][ci] == 0 then 0 else 1
      {
        var p := caches[k][ci];
        if p == 0 {
          if used == |supply| { return None; }
          assert supply[used..][1..] == supply[used + 1..];
          TakeFreshPage(k, ci, supply[used]);
          used := used + 1;
          continue;
        }
        if metas[p].freeHead == 0 {
          DropExhausted(k, ci);
          continue;
        }
        var obj := TakeObject(k, ci);
        return Some(obj);
      }
    }

    method DeallocObject(k: nat, ci: nat, ptr: nat)
      requires Tracked(Value()) && k in caches && ci < CLASSES
      modifies this
      ensures Value() == Dealloc(old(Value()), k, ci, ptr)
    {
      if ptr < base { return; }
      var p := (ptr - base) / PAGE_SIZE * PAGE_SIZE;
      if p !in metas { return; }
      var m := metas[p];
      mem := mem[ptr := m.freeHead];
      live, free := live - {ptr}, free[p := [ptr] + (if p in free then free[p] else [])];
      metas := metas[p := m.(freeHead := ptr)];
      ReleaseCacheReference(p);
      if m.refcount == 1 { return; }
      if m.freeHead == 0 && caches[k][ci] == 0 {
        metas := metas[p := m.(freeHead := ptr)];
        StoreSlot(k, ci, p);
      }
    }

    method EmptySlot(k: nat, i: nat)
      requires Tracked(Value()) && k in caches && i < CLASSES && caches[k][i] != 0
      modifies this
      ensures Value() == SetSlot(DropRef(old(Value()), old(caches)[k][i]), k, i, 0)
      ensures Tracked(Value()) && k in caches
    {
      ReleaseCacheReference(caches[k][i]);
      StoreSlot(k, i, 0);
    }

    method ReleaseCache(k: nat)
      requires Tracked(Value()) && k in caches
      modifies this
      ensures Value() == Release(old(Value()), k, 0)
    {
      hide DropRef, SetSlot;
      ghost var s := Value();
      var i := 0;
      while i < CLASSES
        invariant 0 <= i <= CLASSES && Tracked(Value()) && k in caches
        invariant Release(Value(), k, i) == Release(s, k, 0)
      {
        if caches[k][i] != 0 { EmptySlot(k, i); }
        i := i + 1;
      }
    }
  }
}
