/**
 What a rebase stream says, from the side of the linker that wrote it: a program of instructions, the bytes of the
 Mach-O rebase opcodes that stand for it, and the locations it asks for, by position. Reading the bytes back gives
 exactly those locations.
 */
module RebaseProgram {
  import opened Prelude
  import opened Uleb
  import opened Rebase
  import opened RebaseLaws

  type Nibble = n: nat | n < 16

  datatype Instruction =
    | SetType(kind: Nibble)
    | SetSegment(segment: Nibble, offset: Word)
    | AddAddress(add: Word)
    | AddScaled(few: Nibble)
    | RebaseFew(few: Nibble)
    | RebaseMany(count: Word)
    | RebaseThenAdd(add: Word)
    | RebaseSkipping(count: Word, skip: Word)

  function Bytes(i: Instruction): (b: seq<Byte>)
    ensures b != []
  {
    match i
    case SetType(kind) => [0x10 + kind]
    case SetSegment(segment, offset) => [0x20 + segment] + Encode(offset)
    case AddAddress(add) => [0x30] + Encode(add)
    case AddScaled(count) => [0x40 + count]
    case RebaseFew(count) => [0x50 + count]
    case RebaseMany(count) => [0x60] + Encode(count)
    case RebaseThenAdd(add) => [0x70] + Encode(add)
    case RebaseSkipping(count, skip) => [0x80] + (Encode(count) + Encode(skip))
  }

  function Stream(p: seq<Instruction>): seq<Byte> {
    if p == [] then [] else Bytes(p[0]) + Stream(p[1..])
  }

  // ---- What a program asks for

  /** The size of what is rebased: a 32-bit word for the two text types, else a pointer. */
  function Size(kind: nat): nat {
    if kind in {2, 3} then 4 else 8
  }

  /** How many locations an instruction asks for, and how far apart they are. */
  function Count(i: Instruction): nat {
    match i
    case RebaseFew(count) => count
    case RebaseMany(count) => count
    case RebaseThenAdd(_) => 1
    case RebaseSkipping(count, _) => count
    case _ => 0
  }

  function Gap(i: Instruction): nat {
    match i
    case RebaseThenAdd(add) => add
    case RebaseSkipping(_, skip) => skip
    case _ => 0
  }

  function Stride(i: Instruction, kind: nat): nat {
    Gap(i) + Size(kind)
  }

  /** Locations the same distance apart. */
  function Spaced(f: Fixup, count: nat, stride: nat): (fixups: seq<Fixup>)
    ensures |fixups| == count
  {
    seq(count, (k: nat) => Fixup(f.segment, f.offset + k * stride, f.kind))
  }

  function Asked(i: Instruction, at: Fixup): seq<Fixup> {
    Spaced(at, Count(i), Stride(i, at.kind))
  }

  /** Where an instruction leaves the position, in numbers without bound. */
  function Moved(i: Instruction, at: Fixup): Fixup {
    match i
    case SetType(kind) => Fixup(at.segment, at.offset, if kind in {1, 2, 3} then kind else 0)
    case SetSegment(segment, offset) => Fixup(segment, offset, at.kind)
    case AddAddress(add) => Fixup(at.segment, at.offset + add, at.kind)
    case AddScaled(count) => Fixup(at.segment, at.offset + count * Size(at.kind), at.kind)
    case _ => Fixup(at.segment, at.offset + Count(i) * Stride(i, at.kind), at.kind)
  }

  /** Its sums stay in the word. */
  predicate Stays(i: Instruction, at: Fixup) {
    Moved(i, at).offset < TWO_64 && (i.RebaseSkipping? ==> Stride(i, at.kind) < TWO_64)
  }

  /** The locations before the first outside the word. */
  function InWord(fixups: seq<Fixup>): seq<Fixup> {
    if fixups == [] || fixups[0].offset >= TWO_64 then [] else [fixups[0]] + InWord(fixups[1..])
  }

  /** The locations reached before a sum leaves the word. */
  function Reached(i: Instruction, at: Fixup): seq<Fixup> {
    if i.RebaseSkipping? && Stride(i, at.kind) >= TWO_64 then [] else InWord(Asked(i, at))
  }

  /** A whole program from a position: the locations in order, and whether a sum leaves the word. */
  function Listed(p: seq<Instruction>, at: Fixup): Listing {
    if p == [] then Listing([], None)
    else if !Stays(p[0], at) then Listing(Reached(p[0], at), Some(Panic))
    else
      var rest := Listed(p[1..], Moved(p[0], at));
      Listing(Asked(p[0], at) + rest.fixups, rest.stop)
  }

  function Final(p: seq<Instruction>, at: Fixup): Fixup {
    if p == [] then at else Final(p[1..], Moved(p[0], at))
  }

  // ---- Repetitions

  lemma {:induction false} RepeatAsks(f: Fixup, count: nat, stride: nat)
    requires f.offset < TWO_64
    ensures Repeat(f, count, stride).0 == InWord(Spaced(f, count, stride))
    decreases count
  {
    var all := Spaced(f, count, stride);
    if count > 0 {
      var g := f.(offset := f.offset + stride);
      var rest := Spaced(g, count - 1, stride);
      assert all[1..] == rest by {
        forall k | 0 <= k < count - 1 ensures all[k + 1] == rest[k] { Arithmetic.MulSum(k + 1, k, 1, stride); }
      }
      assert all[0] == f;
      if g.offset < TWO_64 {
        RepeatAsks(g, count - 1, stride);
      } else {
        assert count > 1 ==> rest[0].offset >= TWO_64;
        assert InWord(rest) == [];
      }
    }
  }

  lemma {:induction false} AllInWord(fixups: seq<Fixup>)
    requires forall k | 0 <= k < |fixups| :: fixups[k].offset < TWO_64
    ensures InWord(fixups) == fixups
    decreases |fixups|
  {
    if fixups != [] { AllInWord(fixups[1..]); }
  }

  lemma AskedInWord(i: Instruction, at: Fixup)
    requires Stays(i, at) && at.offset < TWO_64
    ensures InWord(Asked(i, at)) == Asked(i, at)
  {
    var asked, stride := Asked(i, at), Stride(i, at.kind);
    forall k | 0 <= k < |asked| ensures asked[k].offset < TWO_64 {
      Arithmetic.MulLe(stride, k, Count(i));
      assert stride * k == k * stride && stride * Count(i) == Count(i) * stride;
    }
    AllInWord(asked);
  }

  /** The three repeating opcodes, whatever their stride. */
  lemma RebasesMeans(i: Instruction, at: Fixup, next: nat)
    requires i.RebaseFew? || i.RebaseMany? || i.RebaseSkipping?
    requires at.offset < TWO_64 && Stride(i, at.kind) < TWO_64
    ensures Rebases(at, next, Count(i), Ok(Stride(i, at.kind))) ==
            if Stays(i, at) then (Asked(i, at), Next(Cursor(next, Moved(i, at)))) else (Reached(i, at), Failed(Panic))
  {
    var count, stride := Count(i), Stride(i, at.kind);
    RepeatClosedForm(at, count, stride);
    RepeatAsks(at, count, stride);
    RepeatPanics(at, count, stride);
    if Stays(i, at) { AskedInWord(i, at); }
    hide Repeat, InWord;
    assert count == 0 ==> count * stride == 0;
  }

  lemma {:induction false} RepeatPanics(f: Fixup, count: nat, stride: nat)
    ensures var end := Repeat(f, count, stride).1;
            end.Err? ==> end.error == Panic
    decreases count
  {
    if count > 0 && f.offset + stride < TWO_64 { RepeatPanics(f.(offset := f.offset + stride), count - 1, stride); }
  }

  // ---- One instruction

  /** What reading an instruction should give. */
  function Answer(i: Instruction, at: Fixup, next: nat): (seq<Fixup>, After) {
    if Stays(i, at) then (Asked(i, at), Next(Cursor(next, Moved(i, at)))) else (Reached(i, at), Failed(Panic))
  }

  lemma NoneAsked(i: Instruction, at: Fixup)
    requires Count(i) == 0
    ensures Asked(i, at) == [] && Reached(i, at) == []
  {
  }

  lemma ThenAddMeans(i: Instruction, at: Fixup)
    requires i.RebaseThenAdd? && at.offset < TWO_64
    ensures Asked(i, at) == [at] && Reached(i, at) == [at] && Moved(i, at).offset == at.offset + (i.add + Size(at.kind))
  {
    assert Asked(i, at) == [at];
    assert [at][1..] == [] && InWord([]) == [];
  }

  /** The instructions with one operand. */
  function Operation(op: nat, imm: Nibble, v: Word): Instruction
    requires op in {2, 3, 6, 7}
  {
    if op == 2 then SetSegment(imm, v)
    else if op == 3 then AddAddress(v)
    else if op == 6 then RebaseMany(v)
    else RebaseThenAdd(v)
  }

  lemma OperateMeans(op: nat, imm: Nibble, v: Word, at: Fixup, next: nat)
    requires op in {2, 3, 6, 7} && at.offset < TWO_64
    ensures Operate(op, imm, at, Ok((v, next))) == Answer(Operation(op, imm, v), at, next)
  {
    var i := Operation(op, imm, v);
    if op == 6 {
      RebasesMeans(i, at, next);
    } else if op == 7 {
      ThenAddMeans(i, at);
    } else {
      NoneAsked(i, at);
    }
    hide Asked, Reached;
  }

  /** The bytes stand at this place in the data. */
  predicate Stand(data: seq<Byte>, at: nat, bytes: seq<Byte>) {
    at + |bytes| <= |data| && data[at..at + |bytes|] == bytes
  }

  lemma StandSplit(data: seq<Byte>, at: nat, a: seq<Byte>, b: seq<Byte>)
    requires Stand(data, at, a + b)
    ensures Stand(data, at, a) && Stand(data, at + |a|, b)
  {
    assert data[at..at + |a|] == (a + b)[..|a|];
    assert data[at + |a|..at + |a| + |b|] == (a + b)[|a|..];
  }

  lemma FirstByte(data: seq<Byte>, at: nat, b: Byte, rest: seq<Byte>)
    requires Stand(data, at, [b] + rest)
    ensures at < |data| && data[at] == b && Stand(data, at + 1, rest)
  {
    StandSplit(data, at, [b], rest);
    assert data[at..at + 1][0] == b;
  }

  lemma ReadStanding(data: seq<Byte>, at: nat, v: Word)
    requires Stand(data, at, Encode(v))
    ensures Read(data, at, 0, 0) == Ok((v, at + |Encode(v)|))
  {
    var n := |Encode(v)|;
    assert data == data[..at] + Encode(v) + data[at + n..];
    DecodeInvertsEncode(data[..at], v, data[at + n..]);
  }

  lemma DecodeOperand(data: seq<Byte>, end: nat, c: Cursor, b: Byte, v: Word)
    requires c.current < end && b / 16 in {2, 3, 6, 7} && Stand(data, c.current, [b] + Encode(v))
    ensures Decode(data, end, c) == Operate(b / 16, b % 16, c.at, Ok((v, c.current + |[b] + Encode(v)|)))
  {
    FirstByte(data, c.current, b, Encode(v));
    ReadStanding(data, c.current + 1, v);
    hide Read, Encode, Operate, Stand;
  }

  lemma DecodeOperands(data: seq<Byte>, end: nat, c: Cursor, count: Word, skip: Word)
    requires c.current < end && Stand(data, c.current, [0x80] + (Encode(count) + Encode(skip)))
    ensures Decode(data, end, c) ==
            Rebases(c.at, c.current + |[0x80] + (Encode(count) + Encode(skip))|, count, Sum2(skip, PointerSize(c.at.kind)))
  {
    hide *;
    var a, b := Encode(count), Encode(skip);
    FirstByte(data, c.current, 0x80, a + b);
    StandSplit(data, c.current + 1, a, b);
    ReadStanding(data, c.current + 1, count);
    ReadStanding(data, c.current + 1 + |a|, skip);
    DecodeEight(data, end, c, count, c.current + 1 + |a|, skip, c.current + 1 + |a| + |b|);
  }

  lemma DecodeEight(data: seq<Byte>, end: nat, c: Cursor, count: Word, middle: nat, skip: Word, next: nat)
    requires c.current < end && c.current < |data| && data[c.current] == 0x80
    requires Read(data, c.current + 1, 0, 0) == Ok((count, middle)) && Read(data, middle, 0, 0) == Ok((skip, next))
    ensures Decode(data, end, c) == Rebases(c.at, next, count, Sum2(skip, PointerSize(c.at.kind)))
  {
    hide Read, Rebases;
  }

  lemma SkippingMeans(i: Instruction, at: Fixup, next: nat)
    requires i.RebaseSkipping? && at.offset < TWO_64
    ensures Rebases(at, next, i.count, Sum2(i.skip, PointerSize(at.kind))) == Answer(i, at, next)
  {
    if Stride(i, at.kind) < TWO_64 { RebasesMeans(i, at, next); }
    hide Asked, Repeat;
  }

  /** The instructions of one byte. */
  lemma ShortMeans(data: seq<Byte>, end: nat, c: Cursor, i: Instruction)
    requires c.current < end && c.at.offset < TWO_64 && (i.SetType? || i.AddScaled? || i.RebaseFew?)
    requires c.current < |data| && data[c.current] == Bytes(i)[0]
    ensures Decode(data, end, c) == Answer(i, c.at, c.current + 1)
  {
    if i.RebaseFew? { RebasesMeans(i, c.at, c.current + 1); } else { NoneAsked(i, c.at); }
    hide Asked, Reached, Rebases;
  }

  lemma LongMeans(data: seq<Byte>, end: nat, c: Cursor, b: Byte, v: Word)
    requires c.current < end && c.at.offset < TWO_64 && b / 16 in {2, 3, 6, 7} && Stand(data, c.current, [b] + Encode(v))
    ensures Decode(data, end, c) == Answer(Operation(b / 16, b % 16, v), c.at, c.current + |[b] + Encode(v)|)
  {
    DecodeOperand(data, end, c, b, v);
    hide Decode, Stand, Encode;
    OperateMeans(b / 16, b % 16, v, c.at, c.current + |[b] + Encode(v)|);
  }

  /** Reading the bytes of an instruction gives the locations it asks for and the position it leaves. */
  lemma DecodeMeans(data: seq<Byte>, end: nat, c: Cursor, i: Instruction)
    requires c.current < end && c.at.offset < TWO_64 && Stand(data, c.current, Bytes(i))
    ensures Decode(data, end, c) == Answer(i, c.at, c.current + |Bytes(i)|)
  {
    hide Decode, Stand, Encode, Answer;
    match i
    case SetSegment(segment, offset) => LongMeans(data, end, c, 0x20 + segment, offset);
    case AddAddress(add) => LongMeans(data, end, c, 0x30, add);
    case RebaseMany(count) => LongMeans(data, end, c, 0x60, count);
    case RebaseThenAdd(add) => LongMeans(data, end, c, 0x70, add);
    case RebaseSkipping(count, skip) =>
      DecodeOperands(data, end, c, count, skip);
      SkippingMeans(i, c.at, c.current + |Bytes(i)|);
    case _ =>
      assert Bytes(i) == [Bytes(i)[0]] + [];
      FirstByte(data, c.current, Bytes(i)[0], []);
      ShortMeans(data, end, c, i);
  }

  // ---- A whole stream

  /** A listing, and what comes after it unless it stops. */
  function Followed(list: Listing, rest: Listing): Listing {
    if list.stop.Some? then list else Listing(list.fixups + rest.fixups, rest.stop)
  }

  /**
   Wherever the bytes of a program stand, and whatever follows them, reading them gives the locations the program asks
   for, in order, and goes on behind them from the position the program leaves.
   */
  lemma {:induction false} StreamMeans(data: seq<Byte>, end: nat, c: Cursor, p: seq<Instruction>)
    requires Stand(data, c.current, Stream(p)) && c.current + |Stream(p)| <= end && c.at.offset < TWO_64
    ensures Expand(data, end, c) ==
            Followed(Listed(p, c.at), Expand(data, end, Cursor(c.current + |Stream(p)|, Final(p, c.at))))
    decreases |p|
  {
    hide *;
    if p == [] {
      FollowsNothing(data, end, c, p);
    } else {
      var i, rest := p[0], p[1..];
      var next := Cursor(c.current + |Bytes(i)|, Moved(i, c.at));
      var last := Cursor(c.current + |Stream(p)|, Final(p, c.at));
      Unrolled(p, c.at);
      StandSplit(data, c.current, Bytes(i), Stream(rest));
      DecodeMeans(data, end, c, i);
      ExpandAnswer(data, end, c, i, next.current);
      if Stays(i, c.at) {
        StreamMeans(data, end, next, rest);
        FollowedTwice(Asked(i, c.at), Listed(rest, next.at), Expand(data, end, last));
      } else {
        StopsThere(Listed(p, c.at), Expand(data, end, last));
      }
    }
  }

  lemma FollowsNothing(data: seq<Byte>, end: nat, c: Cursor, p: seq<Instruction>)
    requires p == []
    ensures Expand(data, end, c) ==
            Followed(Listed(p, c.at), Expand(data, end, Cursor(c.current + |Stream(p)|, Final(p, c.at))))
  {
    var rest := Expand(data, end, c);
    assert [] + rest.fixups == rest.fixups;
  }

  /** The four readings of a program, one instruction off its front. */
  lemma Unrolled(p: seq<Instruction>, at: Fixup)
    requires p != []
    ensures Stream(p) == Bytes(p[0]) + Stream(p[1..]) && Final(p, at) == Final(p[1..], Moved(p[0], at))
    ensures Stays(p[0], at) ==>
              var rest := Listed(p[1..], Moved(p[0], at));
              Moved(p[0], at).offset < TWO_64 && Listed(p, at) == Listing(Asked(p[0], at) + rest.fixups, rest.stop)
    ensures !Stays(p[0], at) ==> Listed(p, at) == Listing(Reached(p[0], at), Some(Panic))
  {
  }

  lemma StopsThere(list: Listing, rest: Listing)
    requires list.stop.Some?
    ensures Followed(list, rest) == list
  {
  }

  lemma FollowedTwice(first: seq<Fixup>, list: Listing, rest: Listing)
    ensures var both := Followed(list, rest);
            Listing(first + both.fixups, both.stop) == Followed(Listing(first + list.fixups, list.stop), rest)
  {
    assert first + (list.fixups + rest.fixups) == (first + list.fixups) + rest.fixups;
  }

  /** One instruction of a stream, then the rest. */
  lemma ExpandAnswer(data: seq<Byte>, end: nat, c: Cursor, i: Instruction, next: nat)
    requires c.current < end && Decode(data, end, c) == Answer(i, c.at, next)
    ensures Stays(i, c.at) ==>
              var rest := Expand(data, end, Cursor(next, Moved(i, c.at)));
              Expand(data, end, c) == Listing(Asked(i, c.at) + rest.fixups, rest.stop)
    ensures !Stays(i, c.at) ==> Expand(data, end, c) == Listing(Reached(i, c.at), Some(Panic))
  {
    DecodeAdvances(data, end, c);
    hide Decode, Stays, Asked, Moved, Reached;
  }

  /** How reading ends: at the end of the stream, at a done opcode, at an unknown one, or past the image. */
  lemma StreamEnds(data: seq<Byte>, end: nat, c: Cursor)
    ensures c.current >= end ==> Expand(data, end, c) == Listing([], None)
    ensures c.current < end && c.current >= |data| ==> Expand(data, end, c) == Listing([], Some(Panic))
    ensures c.current < end && c.current < |data| && data[c.current] < 0x10 ==>
              Expand(data, end, c) == Listing([], if end - c.current > 16 then Some(TerminatedEarly) else None)
    ensures c.current < end && c.current < |data| && data[c.current] >= 0x90 ==>
              Expand(data, end, c) == Listing([], Some(UnknownOpcode))
  {
  }

  lemma {:induction false} ReadCut(data: seq<Byte>, offset: nat, acc: nat, shift: nat)
    requires offset <= |data| && shift + 7 * (|data| - offset) < 71
    requires forall k | offset <= k < |data| :: data[k] >= 128
    ensures Read(data, offset, acc, shift) == Err(UnexpectedEnd)
    decreases |data| - offset
  {
    if offset < |data| { ReadCut(data, offset + 1, Join(acc, data[offset] % 128, shift), shift + 7); }
  }

  /** An operand cut off by the end of the image; the rebase that precedes its operand is still asked for. */
  lemma OperandCut(data: seq<Byte>, end: nat, c: Cursor)
    requires c.current < end && c.current < |data| <= c.current + 11 && data[c.current] / 16 in {2, 3, 6, 7, 8}
    requires forall k | c.current < k < |data| :: data[k] >= 128
    ensures Expand(data, end, c) == Listing(if data[c.current] / 16 == 7 then [c.at] else [], Some(UnexpectedEnd))
  {
    ReadCut(data, c.current + 1, 0, 0);
  }

  /**
   An image whose rebase information is the stream of a program, closed by its end or by a done opcode and padding:
   linking lists exactly what the program asks for.
   */
  lemma ImageListsProgram(image: Image, off: nat, size: nat, p: seq<Instruction>)
    requires Stand(image.bytes, off, Stream(p))
    requires var n := |Stream(p)|;
             || size == n
             || (n < size <= n + 16 && off + n < |image.bytes| && image.bytes[off + n] < 0x10)
    ensures Expand(image.bytes, off + size, Start(off)) == Listed(p, Fixup(0, 0, 0))
  {
    hide *;
    var list := Listed(p, Fixup(0, 0, 0));
    StartsAt(off);
    StreamMeans(image.bytes, off + size, Start(off), p);
    StreamEnds(image.bytes, off + size, Cursor(off + |Stream(p)|, Final(p, Fixup(0, 0, 0))));
    FollowedByNothing(list);
  }

  lemma StartsAt(off: nat)
    ensures Start(off) == Cursor(off, Fixup(0, 0, 0))
  {
  }

  lemma FollowedByNothing(list: Listing)
    ensures Followed(list, Listing([], None)) == list
  {
    assert list.fixups + [] == list.fixups;
  }

  /**
   Linking such an image, when the locations do not overlap: it succeeds exactly when no sum leaves the word and every
   location can be rebased; then each location the program asks for has slid once and no other byte has changed.
   */
  lemma LinkedProgram(image: Image, infos: seq<DyldInfo>, mem: Memory, off: nat, size: nat, p: seq<Instruction>)
    requires RebaseRange(infos) == Ok((off, size)) && Stand(image.bytes, off, Stream(p))
    requires var n := |Stream(p)|;
             || size == n
             || (n < size <= n + 16 && off + n < |image.bytes| && image.bytes[off + n] < 0x10)
    requires Separate(image, Listed(p, Fixup(0, 0, 0)).fixups)
    ensures Linked(image, Listed(p, Fixup(0, 0, 0)), mem, Meaning(image, infos, mem).0, Meaning(image, infos, mem).1)
  {
    hide *;
    ImageListsProgram(image, off, size, p);
    LinkedImage(image, infos, mem, off, size);
  }
}
