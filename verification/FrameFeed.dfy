/**
 How the frame allocator of kernel/src/memory/frame.rs is fed: usable ranges are cut at zone borders and put as
 naturally aligned power-of-two blocks. LLFree itself is not modelled: a zone records the blocks put into it.
 */
module FrameFeed {
  import opened Arithmetic
  import opened Prelude

  const PAGE: nat := 4096
  const USIZE_MAX: nat := 0xFFFF_FFFF_FFFF_FFFF

  datatype Zone = Low | Dma32 | Normal

  function ZoneStart(z: Zone): (s: nat)
    ensures s % PAGE == 0
  {
    match z
    case Low => 0
    case Dma32 => 0x10_0000
    case Normal => 0x1_0000_0000
  }

  function ZoneEnd(z: Zone): nat {
    match z
    case Low => 0x10_0000
    case Dma32 => 0x1_0000_0000
    case Normal => USIZE_MAX
  }

  predicate Contains(z: Zone, a: nat) {
    ZoneStart(z) <= a < ZoneEnd(z)
  }

  /** `frame_num_until`. */
  function FrameNumUntil(z: Zone, maxPhys: nat): nat {
    var end := Min(ZoneEnd(z), AlignUp(maxPhys, PAGE));
    if end < ZoneStart(z) then 0 else (end - ZoneStart(z)) / PAGE
  }

  // ---- Blocks

  datatype Block = Block(frame: nat, order: nat)

  function TrailingZeros(n: nat): nat {
    if n == 0 then 64 else if n % 2 == 1 then 0 else 1 + TrailingZeros(n / 2)
  }

  /** The exponent of the largest power of two up to n. */
  function FloorLog2(n: nat): (e: nat)
    requires n > 0
    ensures Pow2(e) <= n < Pow2(e + 1)
  {
    if n == 1 then 0 else 1 + FloorLog2(n / 2)
  }

  function OrderAt(frame: nat, left: nat, maxOrder: nat): nat
    requires left > 0
  {
    Min(Min(TrailingZeros(frame), maxOrder), FloorLog2(left))
  }

  /** The blocks `mark_usable` puts for the frames from `frame` up to `end`. */
  function Blocks(frame: nat, end: nat, maxOrder: nat): seq<Block>
    decreases end - frame
  {
    if frame >= end then []
    else
      var order := OrderAt(frame, end - frame, maxOrder);
      [Block(frame, order)] + Blocks(frame + Pow2(order), end, maxOrder)
  }

  predicate Covers(b: Block, f: nat) {
    b.frame <= f < b.frame + Pow2(b.order)
  }

  /** How many of the blocks hold a frame. */
  function PutCount(blocks: seq<Block>, f: nat): nat {
    if blocks == [] then 0
    else PutCount(blocks[..|blocks| - 1], f) + if Covers(blocks[|blocks| - 1], f) then 1 else 0
  }

  lemma {:induction false} ZerosDivide(n: nat, k: nat)
    requires k <= TrailingZeros(n)
    ensures n % Pow2(k) == 0
    decreases k
  {
    if n == 0 {
      DivUnique(Pow2(k), 0, 0, 0);
    } else if k > 0 {
      ZerosDivide(n / 2, k - 1);
      Doubled(n / 2, Pow2(k - 1));
    }
  }

  lemma Doubled(h: nat, p: nat)
    requires p > 0
    ensures (2 * h) % (2 * p) == 0 <==> h % p == 0
  {
    DivUnique(2 * p, h / p, 2 * (h % p), 2 * h);
  }

  lemma {:induction false} ZerosAreAll(n: nat)
    requires n > 0
    ensures n % Pow2(TrailingZeros(n) + 1) != 0
    decreases n
  {
    if n % 2 == 1 {
      assert Pow2(1) == 2;
    } else {
      ZerosAreAll(n / 2);
      Doubled(n / 2, Pow2(TrailingZeros(n / 2) + 1));
    }
  }

  /** A block starts on its own alignment, fits in what is left, and could not be larger. */
  lemma OrderIsLargest(frame: nat, left: nat, maxOrder: nat)
    requires left > 0 && maxOrder <= 64
    ensures var k := OrderAt(frame, left, maxOrder);
            && k <= maxOrder && frame % Pow2(k) == 0 && Pow2(k) <= left
            && (k == maxOrder || frame % Pow2(k + 1) != 0 || Pow2(k + 1) > left)
  {
    var k := OrderAt(frame, left, maxOrder);
    ZerosDivide(frame, k);
    PowMonotone(k, FloorLog2(left));
    if k == TrailingZeros(frame) && frame > 0 { ZerosAreAll(frame); }
  }

  lemma {:induction false} PutCountAppend(a: seq<Block>, b: seq<Block>, f: nat)
    ensures PutCount(a + b, f) == PutCount(a, f) + PutCount(b, f)
    decreases |b|
  {
    if b == [] {
      assert a + b == a;
    } else {
      PutCountAppend(a, b[..|b| - 1], f);
      assert (a + b)[..|a + b| - 1] == a + b[..|b| - 1];
    }
  }

  /** The blocks tile the frames: none is missed and none is put twice. */
  lemma {:induction false} BlocksTile(frame: nat, end: nat, maxOrder: nat, f: nat)
    ensures PutCount(Blocks(frame, end, maxOrder), f) == if frame <= f < end then 1 else 0
    decreases end - frame
  {
    if frame < end {
      var k := OrderAt(frame, end - frame, maxOrder);
      PowMonotone(k, FloorLog2(end - frame));
      var first, rest := [Block(frame, k)], Blocks(frame + Pow2(k), end, maxOrder);
      BlocksTile(frame + Pow2(k), end, maxOrder, f);
      PutCountAppend(first, rest, f);
      assert PutCount(first, f) == if Covers(first[0], f) then 1 else 0 by { assert first[..0] == []; }
    }
  }

  /** Every block is aligned to its order, no larger than allowed, and inside the range. */
  predicate WellPlaced(b: Block, frame: nat, end: nat, maxOrder: nat) {
    frame <= b.frame && b.frame + Pow2(b.order) <= end && b.order <= maxOrder && b.frame % Pow2(b.order) == 0
  }

  lemma {:induction false} BlocksWellPlaced(frame: nat, end: nat, maxOrder: nat)
    requires maxOrder <= 64
    ensures forall b | b in Blocks(frame, end, maxOrder) :: WellPlaced(b, frame, end, maxOrder)
    decreases end - frame
  {
    if frame < end {
      var k := OrderAt(frame, end - frame, maxOrder);
      OrderIsLargest(frame, end - frame, maxOrder);
      BlocksWellPlaced(frame + Pow2(k), end, maxOrder);
    }
  }

  // ---- Frames of a range

  /** The whole page of the frame lies in the range and in the zone. */
  predicate Whole(z: Zone, a: nat, b: nat, f: nat) {
    var page := ZoneStart(z) + f * PAGE;
    a <= page && page + PAGE <= b && page + PAGE <= ZoneEnd(z)
  }

  /** The first frame of a range and the frame after its last, in a zone that holds them. */
  function FirstFrame(z: Zone, a: nat): nat
    requires a >= ZoneStart(z)
  {
    (AlignUp(a, PAGE) - ZoneStart(z)) / PAGE
  }

  function EndFrame(z: Zone, b: nat): nat
    requires b >= ZoneStart(z)
  {
    (AlignDown(b, PAGE) - ZoneStart(z)) / PAGE
  }

  lemma FramesAreWhole(z: Zone, a: nat, b: nat, f: nat)
    requires ZoneStart(z) <= a && ZoneStart(z) <= b <= ZoneEnd(z)
    ensures FirstFrame(z, a) <= f < EndFrame(z, b) <==> Whole(z, a, b, f)
  {
  }
}
