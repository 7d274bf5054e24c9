/** The linker of library/dyld/src/dyld.rs as it runs: one pass that decodes and writes as it goes. */
module RebaseLinker {
  import opened Prelude
  import opened Uleb
  import opened Rebase

  /** Fixups one after the other, then more of them. */
  lemma {:induction false} ApplyAppend(image: Image, a: seq<Fixup>, b: seq<Fixup>, mem: Memory)
    ensures var (m, e) := ApplyAll(image, a, mem);
            ApplyAll(image, a + b, mem) == if e.Some? then (m, e) else ApplyAll(image, b, m)
    decreases |a|
  {
    if a == [] {
      assert a + b == b;
    } else {
      assert (a + b)[0] == a[0] && (a + b)[1..] == a[1..] + b;
      var r := ApplyFixup(image, a[0], mem);
      if r.Ok? { ApplyAppend(image, a[1..], b, r.value); }
    }
  }

  /** What happened so far, followed by where the reading goes on. */
  function Then(m: Memory, e: Option<LinkError>, after: After): (Memory, After) {
    (m, if e.Some? then Failed(e.value) else after)
  }

  /** One opcode read and performed. */
  function Execute(image: Image, end: nat, c: Cursor, mem: Memory): (Memory, After)
    requires c.current < end
  {
    var (fixups, after) := Decode(image.bytes, end, c);
    var (m, e) := ApplyAll(image, fixups, mem);
    Then(m, e, after)
  }

  /** Everything from here on. */
  function Finish(image: Image, end: nat, mem: Memory, after: After): (Memory, Option<LinkError>) {
    match after
    case Failed(e) => (mem, Some(e))
    case Done => (mem, None)
    case Next(c) => Perform(image, Expand(image.bytes, end, c), mem)
  }

  /** Performing an opcode and then the rest is performing the whole listing. */
  lemma ExecuteThenRest(image: Image, end: nat, c: Cursor, mem: Memory)
    requires c.current < end
    ensures var (m, after) := Execute(image, end, c, mem);
            Perform(image, Expand(image.bytes, end, c), mem) == Finish(image, end, m, after)
  {
    var (fixups, after) := Decode(image.bytes, end, c);
    var list := Expand(image.bytes, end, c);
    if after.Next? {
      DecodeAdvances(image.bytes, end, c);
      var rest := Expand(image.bytes, end, after.cursor);
      assert list == Listing(fixups + rest.fixups, rest.stop);
      hide Decode, Expand;
      ApplyAppend(image, fixups, rest.fixups, mem);
    } else {
      hide Expand;
      assert list.fixups == fixups;
    }
  }

  /** A repetition, performed. */
  function Times(image: Image, f: Fixup, current: nat, count: nat, stride: nat, mem: Memory): (Memory, After) {
    var (fixups, after) := Rebases(f, current, count, Ok(stride));
    var (m, e) := ApplyAll(image, fixups, mem);
    Then(m, e, after)
  }

  /** Its first fixup, then the others. */
  lemma TimesStep(image: Image, f: Fixup, current: nat, count: nat, stride: nat, mem: Memory)
    requires count > 0
    ensures var r := ApplyFixup(image, f, mem);
            Times(image, f, current, count, stride, mem) ==
            if r.Err? then (mem, Failed(r.error))
            else if f.offset + stride >= TWO_64 then (r.value, Failed(Panic))
            else Times(image, f.(offset := f.offset + stride), current, count - 1, stride, r.value)
  {
    hide ApplyFixup;
    var rest := if f.offset + stride >= TWO_64 then [] else Repeat(f.(offset := f.offset + stride), count - 1, stride).0;
    assert ([f] + rest)[0] == f && ([f] + rest)[1..] == rest;
    assert Repeat(f, count, stride).0 == [f] + rest;
    var r := ApplyFixup(image, f, mem);
    assert r.Ok? ==> ApplyAll(image, [f] + rest, mem) == ApplyAll(image, rest, r.value);
    assert r.Err? ==> ApplyAll(image, [f] + rest, mem) == (mem, Some(r.error));
  }

  lemma NoFixups(image: Image, mem: Memory)
    ensures ApplyAll(image, [], mem) == (mem, None)
  {
  }

  lemma OneFixup(image: Image, f: Fixup, mem: Memory)
    ensures var r := ApplyFixup(image, f, mem);
            ApplyAll(image, [f], mem) == if r.Ok? then (r.value, None) else (mem, Some(r.error))
  {
    hide ApplyFixup;
    assert [f][1..] == [];
  }

  class Linker {
    const image: Image
    /** The target's memory; a read or a write succeeds when every byte is mapped. */
    var mem: Memory

    constructor (image: Image, mem: Memory)
      ensures this.image == image && this.mem == mem
    {
      this.image := image;
      this.mem := mem;
    }

    /** `read_uleb128`: the value, and where reading stopped. */
    method ReadUleb(offset: nat) returns (r: Result<(nat, nat)>)
      ensures r == Read(image.bytes, offset, 0, 0)
    {
      var value: nat, shift: nat, at := 0, 0, offset;
      while true
        invariant at >= offset && Read(image.bytes, at, value, shift) == Read(image.bytes, offset, 0, 0)
        decreases |image.bytes| - at
      {
        if at >= |image.bytes| { return Err(UnexpectedEnd); }
        var byte := image.bytes[at];
        at := at + 1;
        if shift >= 64 { return Err(Panic); }
        value := Join(value, byte % 128, shift);
        if byte < 128 { return Ok((value, at)); }
        shift := shift + 7;
      }
    }

    method ApplyRebase(f: Fixup) returns (error: Option<LinkError>)
      modifies this`mem
      ensures var r := ApplyFixup(image, f, old(mem));
              if r.Ok? then error == None && mem == r.value else error == Some(r.error) && mem == old(mem)
    {
      if f.segment >= |image.segments| { return Some(SegmentOutOfRange); }
      var vmAddr := image.segments[f.segment] + f.offset;
      if vmAddr >= TWO_64 { return Some(Panic); }
      if vmAddr + image.slide >= TWO_64 { return Some(AddressOverflow); }
      var a := vmAddr + image.slide;
      if f.kind == TYPE_POINTER {
        if !Mapped(mem, a, 8) { return Some(TargetFault); }
        var cur := Little(Fetch(mem, a, 8)) + image.slide;
        if cur >= TWO_64 { return Some(Panic); }
        mem := Store(mem, a, ToLittle(cur, 8));
        return None;
      } else if f.kind == TYPE_ABSOLUTE32 {
        if !Mapped(mem, a, 4) { return Some(TargetFault); }
        var cur := (Little(Fetch(mem, a, 4)) + image.slide % TWO_32) % TWO_32;
        mem := Store(mem, a, ToLittle(cur, 4));
        return None;
      } else if f.kind == TYPE_PCREL32 {
        return None;
      }
      return Some(UnsupportedType);
    }

    /** The counting loops of the three repeating opcodes. */
    method RebaseTimes(f: Fixup, current: nat, count: nat, stride: nat) returns (after: After)
      modifies this`mem
      ensures (mem, after) == Times(image, f, current, count, stride, old(mem))
    {
      var i, at := 0, f;
      while i < count
        invariant i <= count
        invariant Times(image, at, current, count - i, stride, mem) == Times(image, f, current, count, stride, old(mem))
      {
        TimesStep(image, at, current, count - i, stride, mem);
        hide Times;
        var error := ApplyRebase(at);
        if error.Some? { return Failed(error.value); }
        if at.offset + stride >= TWO_64 { return Failed(Panic); }
        i, at := i + 1, at.(offset := at.offset + stride);
      }
      return Next(Cursor(current, at));
    }

    /** The body of the opcode loop. */
    method Step(end: nat, c: Cursor) returns (after: After)
      requires c.current < end
      modifies this`mem
      ensures (mem, after) == Execute(image, end, c, old(mem))
    {
      hide ApplyFixup, Read, Repeat;
      NoFixups(image, mem);
      OneFixup(image, c.at, mem);
      if c.current >= |image.bytes| { return Failed(Panic); }
      var op, imm, here, at := image.bytes[c.current] / 16, image.bytes[c.current] % 16, c.current + 1, c.at;
      var size := PointerSize(at.kind);
      match op {
        case 0 =>
          if end - here > 15 { return Failed(TerminatedEarly); }
          return Done;
        case 1 => return Next(Cursor(here, at.(kind := if 1 <= imm <= 3 then imm else 0)));
        case 2 =>
          var operand := ReadUleb(here);
          if operand.Err? { return Failed(operand.error); }
          return Next(Cursor(operand.value.1, at.(segment := imm, offset := operand.value.0)));
        case 3 =>
          var operand := ReadUleb(here);
          if operand.Err? { return Failed(operand.error); }
          if at.offset + operand.value.0 >= TWO_64 { return Failed(Panic); }
          return Next(Cursor(operand.value.1, at.(offset := at.offset + operand.value.0)));
        case 4 =>
          if at.offset + imm * size >= TWO_64 { return Failed(Panic); }
          return Next(Cursor(here, at.(offset := at.offset + imm * size)));
        case 5 => after := RebaseTimes(at, here, imm, size);
        case 6 =>
          var count := ReadUleb(here);
          if count.Err? { return Failed(count.error); }
          after := RebaseTimes(at, count.value.1, count.value.0, size);
        case 7 => after := RebaseThenAdd(at, here);
        case 8 =>
          var count := ReadUleb(here);
          if count.Err? { return Failed(count.error); }
          var skip := ReadUleb(count.value.1);
          if skip.Err? { return Failed(skip.error); }
          if skip.value.0 + size >= TWO_64 { return Failed(Panic); }
          after := RebaseTimes(at, skip.value.1, count.value.0, skip.value.0 + size);
        case _ => return Failed(UnknownOpcode);
      }
    }

    /** The opcode that rebases before it reads its operand. */
    method RebaseThenAdd(at: Fixup, here: nat) returns (after: After)
      modifies this`mem
      ensures var (fixups, next) := Operate(7, 0, at, Read(image.bytes, here, 0, 0));
              var (m, e) := ApplyAll(image, fixups, old(mem));
              (mem, after) == Then(m, e, next)
    {
      hide ApplyFixup, Read;
      OneFixup(image, at, mem);
      var size := PointerSize(at.kind);
      var error := ApplyRebase(at);
      if error.Some? { return Failed(error.value); }
      var operand := ReadUleb(here);
      if operand.Err? { return Failed(operand.error); }
      var add := operand.value.0;
      if add + size >= TWO_64 || at.offset + (add + size) >= TWO_64 { return Failed(Panic); }
      return Next(Cursor(operand.value.1, at.(offset := at.offset + (add + size))));
    }

    /** The scan over load commands. */
    method FindRebaseRange(infos: seq<DyldInfo>) returns (r: Result<(nat, nat)>)
      ensures r == RebaseRange(infos)
    {
      var off, size := 0, 0;
      for i := 0 to |infos|
        invariant forall j | 0 <= j < i :: !infos[j].binds
        invariant (off, size) == if i == 0 then (0, 0) else (infos[i - 1].rebaseOff, infos[i - 1].rebaseSize)
      {
        if infos[i].binds { return Err(BindingUnsupported); }
        off, size := infos[i].rebaseOff, infos[i].rebaseSize;
      }
      return Ok((off, size));
    }

    /**
     `link`: decoding and writing in one pass leaves the memory, and gives the error, that listing every fixup
     first and then applying the list in order would.
     */
    method Link(infos: seq<DyldInfo>) returns (error: Option<LinkError>)
      modifies this`mem
      ensures (mem, error) == Meaning(image, infos, old(mem))
    {
      var range := FindRebaseRange(infos);
      if range.Err? { return Some(range.error); }
      var off, size := range.value.0, range.value.1;
      var end := off + size;
      ghost var goal := Perform(image, Expand(image.bytes, end, Start(off)), mem);
      assert goal == Meaning(image, infos, mem);
      if size == 0 { return None; }
      var c := Start(off);
      while c.current < end
        invariant Perform(image, Expand(image.bytes, end, c), mem) == goal
        decreases if c.current < |image.bytes| then |image.bytes| - c.current else 0
      {
        ExecuteThenRest(image, end, c, mem);
        DecodeAdvances(image.bytes, end, c);
        hide Decode, Expand, Perform, ApplyAll;
        var after := Step(end, c);
        match after {
          case Failed(e) => return Some(e);
          case Done => return None;
          case Next(next) => c := next;
        }
      }
      return None;
    }
  }
}
