/** Fixed-point virtual time, kernel/src/sched/eevdf.rs. All saturating operations are written out. */
module Eevdf {
  import opened Arithmetic

  const MAX_U64: nat := 0xFFFF_FFFF_FFFF_FFFF
  const MAX_U128: nat := 0xFFFF_FFFF_FFFF_FFFF_FFFF_FFFF_FFFF_FFFF
  const BASE_WEIGHT: nat := 1024
  const MAX_DURATION: nat := MAX_U64 * 1_000_000_000 + 999_999_999

  /** A `u64` load weight. */
  type Weight = n: nat | n <= MAX_U64

  /** A `u128` virtual timestamp. */
  type Virtual = n: nat | n <= MAX_U128

  /** A `Duration` or an `Instant`, in nanoseconds. */
  type Nanos = n: nat | n <= MAX_DURATION

  function SatAdd(a: nat, b: nat, max: nat): (r: nat)
    ensures r <= max
  {
    if a + b <= max then a + b else max
  }

  function SatSub(a: nat, b: nat): nat {
    if a >= b then a - b else 0
  }

  function SatMul(a: nat, b: nat): Virtual {
    if a * b <= MAX_U128 then a * b else MAX_U128
  }

  function AbsDiff(a: nat, b: nat): nat {
    if a >= b then a - b else b - a
  }

  function AtLeastOne(weight: Weight): (w: Weight)
    ensures w >= 1
  {
    if weight >= 1 then weight else 1
  }

  /** Truncating division. */
  function Div(x: nat, d: nat): (q: nat)
    requires d > 0
    ensures q <= x
  {
    DivShrinks(x, d);
    x / d
  }

  /** `runtime_to_virtual` and `scheduler_runtime_to_virtual`: one formula, two weights. */
  function RuntimeToVirtual(weight: Weight, runtime: Nanos): Virtual {
    Div(SatMul(runtime, BASE_WEIGHT), AtLeastOne(weight))
  }

  function Eligible(vtime: Virtual, vruntime: Virtual): Virtual {
    if vruntime >= vtime then vruntime else vtime
  }

  function DeadlineFromEligible(weight: Weight, slice: Nanos, veligible: Virtual): Virtual {
    SatAdd(veligible, RuntimeToVirtual(weight, slice), MAX_U128)
  }

  /** The quotient times the divisor misses the dividend by less than the divisor. */
  lemma DivBounds(x: nat, d: nat)
    requires d > 0
    ensures d * Div(x, d) <= x < d * Div(x, d) + d
  {
    assert x == d * (x / d) + x % d;
  }

  lemma DivShrinks(x: nat, d: nat)
    requires d > 0
    ensures x / d <= x
  {
    assert x == d * (x / d) + x % d;
    MulLe(x / d, 1, d);
  }

  lemma DivMonotone(x: nat, y: nat, d: nat)
    requires d > 0 && x <= y
    ensures Div(x, d) <= Div(y, d)
  {
    DivBounds(x, d);
    DivBounds(y, d);
    if Div(y, d) < Div(x, d) { MulLess(d, Div(y, d), Div(x, d)); }
  }

  lemma DivPositive(x: nat, d: nat)
    requires d > 0
    ensures Div(x, d) > 0 <==> x >= d
  {
    DivBounds(x, d);
    if Div(x, d) > 0 { MulLe(d, 1, Div(x, d)); }
  }
}
