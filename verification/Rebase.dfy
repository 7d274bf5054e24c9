/**
 What a rebase stream means: the opcodes of library/dyld/src/dyld.rs read as a list of fixups, applied in order
 to target memory. Sums of addresses are checked, as in the workspace's development profile: overflow panics.
 */
module Rebase {
  import opened Prelude
  import opened Uleb

  const TYPE_POINTER: nat := 1
  const TYPE_ABSOLUTE32: nat := 2
  const TYPE_PCREL32: nat := 3
  const TWO_32: nat := 0x1_0000_0000

  type Memory = map<nat, Byte>

  /** One location to adjust; `kind` is one of the three rebase types, or 0 when none is set. */
  datatype Fixup = Fixup(segment: nat, offset: nat, kind: nat)

  /** The interpreter's registers: where the next opcode is, and what the next fixup would be. */
  datatype Cursor = Cursor(current: nat, at: Fixup)

  datatype Image = Image(bytes: seq<Byte>, segments: seq<Word>, slide: Word)

  /** Fixups in order, and what stops the reading after the last: nothing, or an error. */
  datatype Listing = Listing(fixups: seq<Fixup>, stop: Option<LinkError>)

  datatype After = Failed(error: LinkError) | Done | Next(cursor: Cursor)

  function PointerSize(kind: nat): nat {
    if kind == TYPE_ABSOLUTE32 || kind == TYPE_PCREL32 then 4 else 8
  }

  // ---- Opcodes to fixups

  /** `count` fixups `stride` apart, and the offset after the last unless it overflows. */
  function Repeat(f: Fixup, count: nat, stride: nat): (seq<Fixup>, Result<nat>)
    decreases count
  {
    if count == 0 then ([], Ok(f.offset))
    else if f.offset + stride >= TWO_64 then ([f], Err(Panic))
    else
      var (rest, end) := Repeat(f.(offset := f.offset + stride), count - 1, stride);
      ([f] + rest, end)
  }

  function Move(at: Fixup, current: nat, offset: Result<nat>): After {
    match offset
    case Err(e) => Failed(e)
    case Ok(n) => Next(Cursor(current, at.(offset := n)))
  }

  function Sum2(a: nat, b: nat): Result<nat> {
    if a + b < TWO_64 then Ok(a + b) else Err(Panic)
  }

  function Rebases(at: Fixup, current: nat, count: nat, stride: Result<nat>): (seq<Fixup>, After) {
    match stride
    case Err(e) => ([], Failed(e))
    case Ok(s) => var (fixups, end) := Repeat(at, count, s); (fixups, Move(at, current, end))
  }

  /** An opcode that takes one operand. */
  function Operate(op: nat, imm: nat, at: Fixup, operand: Result<(nat, nat)>): (seq<Fixup>, After) {
    var size := PointerSize(at.kind);
    match operand
    case Err(e) => (if op == 7 then [at] else [], Failed(e))
    case Ok((v, next)) =>
      match op
      case 2 => ([], Next(Cursor(next, Fixup(imm, v, at.kind))))
      case 3 => ([], Move(at, next, Sum2(at.offset, v)))
      case 6 => Rebases(at, next, v, Ok(size))
      case _ => ([at], if v + size >= TWO_64 then Failed(Panic) else Move(at, next, Sum2(at.offset, v + size)))
  }

  /** One opcode: the fixups it asks for, and where reading goes on. */
  function Decode(bytes: seq<Byte>, end: nat, c: Cursor): (seq<Fixup>, After)
    requires c.current < end
  {
    if c.current >= |bytes| then ([], Failed(Panic))
    else
      var op, imm, here := bytes[c.current] / 16, bytes[c.current] % 16, c.current + 1;
      var size := PointerSize(c.at.kind);
      match op
      case 0 => ([], if end - here > 15 then Failed(TerminatedEarly) else Done)
      case 1 => ([], Next(Cursor(here, c.at.(kind := if 1 <= imm <= 3 then imm else 0))))
      case 4 => ([], Move(c.at, here, Sum2(c.at.offset, imm * size)))
      case 5 => Rebases(c.at, here, imm, Ok(size))
      case 8 => (
        match Read(bytes, here, 0, 0)
        case Err(e) => ([], Failed(e))
        case Ok((count, next)) =>
          match Read(bytes, next, 0, 0)
          case Err(e) => ([], Failed(e))
          case Ok((skip, after)) => Rebases(c.at, after, count, Sum2(skip, size)))
      case _ =>
        if op > 8 then ([], Failed(UnknownOpcode)) else Operate(op, imm, c.at, Read(bytes, here, 0, 0))
  }

  lemma {:induction false} ReadEnds(data: seq<Byte>, offset: nat, acc: nat, shift: nat)
    ensures Read(data, offset, acc, shift).Ok? ==> offset < Read(data, offset, acc, shift).value.1 <= |data|
    decreases |data| - offset
  {
    if offset < |data| && shift < 64 && data[offset] >= 128 {
      ReadEnds(data, offset + 1, Join(acc, data[offset] % 128, shift), shift + 7);
    }
  }

  /** Every opcode consumes input. */
  lemma DecodeAdvances(bytes: seq<Byte>, end: nat, c: Cursor)
    requires c.current < end
    ensures Decode(bytes, end, c).1.Next? ==> c.current < Decode(bytes, end, c).1.cursor.current <= |bytes|
  {
    if c.current < |bytes| {
      ReadEnds(bytes, c.current + 1, 0, 0);
      var r := Read(bytes, c.current + 1, 0, 0);
      if r.Ok? { ReadEnds(bytes, r.value.1, 0, 0); }
    }
  }

  /** The whole stream as a list of fixups. */
  function Expand(bytes: seq<Byte>, end: nat, c: Cursor): Listing
    decreases if c.current < |bytes| then |bytes| - c.current else 0
  {
    if c.current >= end then Listing([], None)
    else
      DecodeAdvances(bytes, end, c);
      var (fixups, after) := Decode(bytes, end, c);
      match after
      case Failed(e) => Listing(fixups, Some(e))
      case Done => Listing(fixups, None)
      case Next(c') =>
        var rest := Expand(bytes, end, c');
        Listing(fixups + rest.fixups, rest.stop)
  }

  // ---- Target memory, little-endian

  function Little(bytes: seq<Byte>): nat {
    if bytes == [] then 0 else bytes[0] + 256 * Little(bytes[1..])
  }

  function ToLittle(n: nat, width: nat): (bytes: seq<Byte>)
    ensures |bytes| == width
  {
    if width == 0 then [] else [n % 256] + ToLittle(n / 256, width - 1)
  }

  /** `width` bytes from `a` on can be read and written. */
  predicate Mapped(mem: Memory, a: nat, width: nat) {
    forall x | a <= x < a + width :: x in mem
  }

  function Fetch(mem: Memory, a: nat, width: nat): (bytes: seq<Byte>)
    requires Mapped(mem, a, width)
    ensures |bytes| == width && forall i | 0 <= i < width :: bytes[i] == mem[a + i]
  {
    seq(width, i requires 0 <= i < width => mem[a + i])
  }

  function Store(mem: Memory, a: nat, bytes: seq<Byte>): (r: Memory)
    requires Mapped(mem, a, |bytes|)
    ensures r.Keys == mem.Keys
    ensures forall x | x in mem :: r[x] == if a <= x < a + |bytes| then bytes[x - a] else mem[x]
  {
    map x | x in mem :: if a <= x < a + |bytes| then bytes[x - a] else mem[x]
  }

  function Value(mem: Memory, a: nat, width: nat): nat
    requires Mapped(mem, a, width)
  {
    Little(Fetch(mem, a, width))
  }

  // ---- One fixup

  /** Where a fixup lands once the image has slid. */
  function Target(image: Image, f: Fixup): Result<nat> {
    if f.segment >= |image.segments| then Err(SegmentOutOfRange)
    else
      var vm := image.segments[f.segment] + f.offset;
      if vm >= TWO_64 then Err(Panic)
      else if vm + image.slide >= TWO_64 then Err(AddressOverflow)
      else Ok(vm + image.slide)
  }

  /** How many bytes a fixup rewrites. */
  function Width(kind: nat): nat {
    if kind == TYPE_POINTER then 8 else if kind == TYPE_ABSOLUTE32 then 4 else 0
  }

  /** What replaces a value: a pointer slides, and must not leave the word; a 32-bit address wraps. */
  function Slid(kind: nat, v: nat, slide: Word): Result<nat> {
    if kind == TYPE_POINTER then Sum2(v, slide) else Ok((v + slide % TWO_32) % TWO_32)
  }

  function ApplyFixup(image: Image, f: Fixup, mem: Memory): Result<Memory> {
    match Target(image, f)
    case Err(e) => Err(e)
    case Ok(a) =>
      if f.kind == TYPE_PCREL32 then Ok(mem)
      else if Width(f.kind) == 0 then Err(UnsupportedType)
      else if !Mapped(mem, a, Width(f.kind)) then Err(TargetFault)
      else
        match Slid(f.kind, Value(mem, a, Width(f.kind)), image.slide)
        case Err(e) => Err(e)
        case Ok(v) => Ok(Store(mem, a, ToLittle(v, Width(f.kind))))
  }

  /** In order, up to the first that fails. */
  function ApplyAll(image: Image, fixups: seq<Fixup>, mem: Memory): (Memory, Option<LinkError>)
    decreases |fixups|
  {
    if fixups == [] then (mem, None)
    else
      match ApplyFixup(image, fixups[0], mem)
      case Err(e) => (mem, Some(e))
      case Ok(m) => ApplyAll(image, fixups[1..], m)
  }

  function Perform(image: Image, list: Listing, mem: Memory): (Memory, Option<LinkError>) {
    var (m, error) := ApplyAll(image, list.fixups, mem);
    (m, if error.Some? then error else list.stop)
  }

  // ---- Load commands

  /** The fields of one `LC_DYLD_INFO` or `LC_DYLD_INFO_ONLY` command. */
  datatype DyldInfo = DyldInfo(rebaseOff: nat, rebaseSize: nat, binds: bool)

  /** Where the stream lies: the last command wins, and any binding information is refused. */
  function RebaseRange(infos: seq<DyldInfo>): Result<(nat, nat)> {
    if exists i | 0 <= i < |infos| :: infos[i].binds then Err(BindingUnsupported)
    else if infos == [] then Ok((0, 0))
    else Ok((infos[|infos| - 1].rebaseOff, infos[|infos| - 1].rebaseSize))
  }

  function Start(off: nat): Cursor {
    Cursor(off, Fixup(0, 0, 0))
  }

  /** What linking does: list the fixups, then apply them. */
  function Meaning(image: Image, infos: seq<DyldInfo>, mem: Memory): (Memory, Option<LinkError>) {
    match RebaseRange(infos)
    case Err(e) => (mem, Some(e))
    case Ok((off, size)) => Perform(image, Expand(image.bytes, off + size, Start(off)), mem)
  }

  // ---- Laws of the pieces

  /** Each fixup of a repetition, and when the repetition stays in the word. */
  lemma {:induction false} RepeatClosedForm(f: Fixup, count: nat, stride: nat)
    ensures var (fixups, end) := Repeat(f, count, stride);
            && (forall k | 0 <= k < |fixups| :: fixups[k] == f.(offset := f.offset + k * stride))
            && (end.Ok? <==> count == 0 || f.offset + count * stride < TWO_64)
            && (end.Ok? ==> |fixups| == count && end.value == f.offset + count * stride)
    decreases count
  {
    if count == 0 {
    } else if f.offset + stride >= TWO_64 {
      Arithmetic.MulLe(stride, 1, count);
      assert stride * count == count * stride;
    } else {
      var g := f.(offset := f.offset + stride);
      RepeatClosedForm(g, count - 1, stride);
      Arithmetic.MulSum(count, count - 1, 1, stride);
      var (rest, end) := Repeat(g, count - 1, stride);
      forall k | 0 <= k < |rest| + 1 ensures ([f] + rest)[k] == f.(offset := f.offset + k * stride) {
        if k > 0 { Arithmetic.MulSum(k, k - 1, 1, stride); }
      }
    }
  }

  function Pow256(width: nat): nat {
    if width == 0 then 1 else 256 * Pow256(width - 1)
  }

  /** Writing a number and reading it back. */
  lemma {:induction false} LittleRoundTrip(n: nat, width: nat)
    requires n < Pow256(width)
    ensures Little(ToLittle(n, width)) == n
    decreases width
  {
    if width > 0 {
      LittleRoundTrip(n / 256, width - 1);
      assert ToLittle(n, width)[1..] == ToLittle(n / 256, width - 1);
    }
  }

  lemma Pow256Widths()
    ensures Pow256(8) == TWO_64 && Pow256(4) == TWO_32
  {
    assert Pow256(2) == 65536;
    assert Pow256(4) == TWO_32;
    assert Pow256(6) == 65536 * TWO_32;
    assert Pow256(8) == TWO_64;
  }

  /** A stored value is read back, and reads that do not overlap it are unaffected. */
  lemma StoreThenRead(mem: Memory, a: nat, n: nat, width: nat)
    requires Mapped(mem, a, width) && n < Pow256(width)
    ensures Mapped(Store(mem, a, ToLittle(n, width)), a, width)
    ensures Value(Store(mem, a, ToLittle(n, width)), a, width) == n
  {
    var r := Store(mem, a, ToLittle(n, width));
    assert Mapped(r, a, width);
    assert Fetch(r, a, width) == ToLittle(n, width);
    LittleRoundTrip(n, width);
  }
}
