/**
 ULEB128 operands of the rebase stream: `read_uleb128` of library/dyld/src/dyld.rs, against the encoding of
 section 7.6 of DWARF Version 5. Arithmetic is checked, as in the workspace's development profile: an
 overflowing shift panics.
 */
module Uleb {
  import opened Arithmetic

  const TWO_64: nat := 0x1_0000_0000_0000_0000

  type Byte = n: nat | n < 256

  type Word = n: nat | n < TWO_64

  datatype LinkError =
    | UnexpectedEnd
    | SegmentOutOfRange
    | AddressOverflow
    | TargetFault
    | UnsupportedType
    | TerminatedEarly
    | UnknownOpcode
    | BindingUnsupported
    | Panic

  datatype Result<+T> = Ok(value: T) | Err(error: LinkError)

  /** One group shifted into place; bits past the word are lost. */
  function Shifted(group: nat, shift: nat): Word {
    group * Pow2(shift) % TWO_64
  }

  /** Bitwise or. */
  function Or(a: nat, b: nat): nat
    decreases a
  {
    if a == 0 then b else (if a % 2 == 1 || b % 2 == 1 then 1 else 0) + 2 * Or(a / 2, b / 2)
  }

  predicate Bit(n: nat, k: nat) {
    if k == 0 then n % 2 == 1 else Bit(n / 2, k - 1)
  }

  /** A bit of the result is set exactly when it is set in one of the two. */
  lemma {:induction false} OrBits(a: nat, b: nat, k: nat)
    ensures Bit(Or(a, b), k) <==> Bit(a, k) || Bit(b, k)
    decreases k
  {
    if k > 0 { OrBits(a / 2, b / 2, k - 1); }
  }

  /** The accumulator with one more group. */
  function Join(acc: nat, group: nat, shift: nat): nat {
    Or(acc, Shifted(group, shift))
  }

  /** The decoding loop from `offset` on, with `acc` the bits so far and `shift` where the next group goes. */
  function Read(data: seq<Byte>, offset: nat, acc: nat, shift: nat): Result<(nat, nat)>
    decreases |data| - offset
  {
    if offset >= |data| then Err(UnexpectedEnd)
    else if shift >= 64 then Err(Panic)
    else
      var acc' := Join(acc, data[offset] % 128, shift);
      if data[offset] < 128 then Ok((acc', offset + 1))
      else Read(data, offset + 1, acc', shift + 7)
  }

  /** The standard encoding: seven bits at a time, low groups first, high bit set on all but the last. */
  function Encode(v: nat): (bytes: seq<Byte>)
    ensures bytes != []
  {
    if v < 128 then [v] else [v % 128 + 128] + Encode(v / 128)
  }

  // ---- Joining a group

  lemma {:induction false} OrAbove(a: nat, m: nat, p: nat)
    requires a < Pow2(p)
    ensures Or(a, m * Pow2(p)) == a + m * Pow2(p)
    decreases p
  {
    if p > 0 && a > 0 {
      assert m * Pow2(p) == 2 * (m * Pow2(p - 1));
      OrAbove(a / 2, m, p - 1);
    }
  }

  /** Bits shifted past the word are lost; what stays is a multiple of the place it was shifted to. */
  lemma ShiftedMultiple(group: nat, shift: nat) returns (m: nat)
    requires shift < 64
    ensures m <= group && Shifted(group, shift) == m * Pow2(shift)
  {
    PowSixtyFour();
    PowAdd(64 - shift, shift);
    ModScaled(group, Pow2(shift), Pow2(64 - shift), TWO_64);
    m := group % Pow2(64 - shift);
    ModAtMost(group, Pow2(64 - shift));
  }

  lemma ModScaled(n: nat, p: nat, q: nat, w: nat)
    requires p > 0 && q > 0 && w == q * p
    ensures (n * p) % w == (n % q) * p
  {
    var high, low := n / q, n % q;
    MulSum(n, q * high, low, p);
    assert (q * high) * p == w * high;
    MulLess(p, low, q);
    assert p * low == low * p && p * q == w && low * p >= 0;
    DivUnique(w, high, low * p, n * p);
  }

  lemma BelowScaled(acc: nat, m: nat, p: nat)
    requires acc < p && m < 128
    ensures acc + m * p < p * 128
  {
    MulLess(p, m, 128);
    assert p * m == m * p;
  }

  /**
   The bits so far lie below the place of the next group, so joining the group with `|` is adding it, and the bits lie
   below the place of the group after it.
   */
  lemma JoinIsAdd(acc: nat, group: nat, shift: nat)
    requires shift < 64 && acc < Pow2(shift) && group < 128
    ensures Join(acc, group, shift) == acc + Shifted(group, shift) < Pow2(shift + 7)
  {
    var m := ShiftedMultiple(group, shift);
    OrAbove(acc, m, shift);
    BelowScaled(acc, m, Pow2(shift));
    PowSeven(shift);
  }

  lemma PowSeven(shift: nat)
    ensures Pow2(shift + 7) == Pow2(shift) * 128
  {
    assert Pow2(7) == 128;
    PowAdd(shift, 7);
  }

  lemma ModAtMost(n: nat, d: nat)
    requires d > 0
    ensures n % d <= n
  {
    assert n == d * (n / d) + n % d;
    MulNonNegative(d, n / d);
  }

  // ---- Decoding what was encoded

  lemma ShiftedExact(v: nat, shift: nat)
    requires v * Pow2(shift) < TWO_64
    ensures Shifted(v % 128, shift) == (v % 128) * Pow2(shift)
  {
    GroupFits(v, Pow2(shift));
  }

  /** One group off a value: what is added now and what is left for the groups above. */
  lemma SplitGroup(v: nat, shift: nat)
    ensures v * Pow2(shift) == (v % 128) * Pow2(shift) + (v / 128) * Pow2(shift + 7)
  {
    var p := Pow2(shift);
    assert Pow2(7) == 128;
    PowAdd(shift, 7);
    Regroup(v % 128, v / 128, p);
    assert v == v % 128 + 128 * (v / 128);
  }

  /** A value in the place of a group. */
  function Scaled(v: nat, shift: nat): nat {
    v * Pow2(shift)
  }

  /** The bits so far end where the next group goes, and the rest still fits in the word. */
  predicate Fits(acc: nat, v: nat, shift: nat) {
    shift < 64 && acc < Pow2(shift) && acc + Scaled(v, shift) < TWO_64
  }

  lemma {:induction false} ReadEncoded(pre: seq<Byte>, v: nat, post: seq<Byte>, acc: nat, shift: nat)
    requires Fits(acc, v, shift)
    ensures Read(pre + Encode(v) + post, |pre|, acc, shift) == Ok((acc + Scaled(v, shift), |pre| + |Encode(v)|))
    decreases v
  {
    var data := pre + Encode(v) + post;
    assert data[|pre|] == Encode(v)[0];
    EncodedStep(v, acc, shift);
    hide Join, Scaled, Fits;
    if v < 128 {
      ReadStep(data, |pre|, v, acc, shift);
    } else {
      var low, high := v % 128, v / 128;
      assert Encode(v) == [low + 128] + Encode(high);
      hide Encode;
      assert data == (pre + [low + 128]) + Encode(high) + post;
      ReadStep(data, |pre|, low, acc, shift);
      hide Read;
      ReadEncoded(pre + [low + 128], high, post, Join(acc, low, shift), shift + 7);
    }
  }

  lemma ReadStep(data: seq<Byte>, at: nat, group: nat, acc: nat, shift: nat)
    requires at < |data| && shift < 64 && group < 128 && (data[at] == group || data[at] == group + 128)
    ensures Read(data, at, acc, shift) ==
            if data[at] < 128 then Ok((Join(acc, group, shift), at + 1))
            else Read(data, at + 1, Join(acc, group, shift), shift + 7)
  {
    hide Join;
    assert data[at] % 128 == group;
  }

  /** One group of an encoded value: what the accumulator becomes, and what is left for the groups above. */
  lemma EncodedStep(v: nat, acc: nat, shift: nat)
    requires Fits(acc, v, shift)
    ensures shift < 64
    ensures v < 128 ==> Join(acc, v % 128, shift) == acc + Scaled(v, shift)
    ensures v >= 128 ==>
              && Fits(Join(acc, v % 128, shift), v / 128, shift + 7)
              && Join(acc, v % 128, shift) + Scaled(v / 128, shift + 7) == acc + Scaled(v, shift)
  {
    ShiftedExact(v, shift);
    JoinIsAdd(acc, v % 128, shift);
    SplitGroup(v, shift);
    if v >= 128 { NotPastWord(v / 128, (v % 128) * Pow2(shift), shift); }
  }

  lemma NotPastWord(high: nat, low: nat, shift: nat)
    requires high >= 1 && low + high * Pow2(shift + 7) < TWO_64
    ensures shift + 7 < 64
  {
    ShiftStillFits(high, shift);
  }

  lemma GroupFits(v: nat, p: nat)
    requires v * p < TWO_64
    ensures (v % 128) * p < TWO_64
  {
    MulLe(p, v % 128, v);
    assert p * v == v * p && p * (v % 128) == (v % 128) * p;
  }

  lemma Regroup(low: nat, high: nat, p: nat)
    ensures (low + 128 * high) * p == low * p + high * (p * 128)
  {
    MulSum(low + 128 * high, low, 128 * high, p);
    assert (128 * high) * p == high * (p * 128);
  }

  /** A non-zero group cannot sit past bit 63 of a value that fits. */
  lemma ShiftStillFits(high: nat, shift: nat)
    requires high >= 1 && high * Pow2(shift + 7) < TWO_64
    ensures shift + 7 < 64
  {
    assert high * Pow2(shift + 7) == Pow2(shift + 7) * high;
    MulLe(Pow2(shift + 7), 1, high);
    PowSixtyFour();
    if shift + 7 >= 64 { PowMonotone(64, shift + 7); }
  }

  lemma PowSixtyFour()
    ensures Pow2(64) == TWO_64
  {
    assert Pow2(8) == 256;
    PowAdd(8, 8);
    PowAdd(16, 16);
    PowAdd(32, 32);
  }

  /** Decoding inverts the standard encoding for every 64-bit value, wherever it stands in the data. */
  lemma DecodeInvertsEncode(pre: seq<Byte>, v: Word, post: seq<Byte>)
    ensures Read(pre + Encode(v) + post, |pre|, 0, 0) == Ok((v, |pre| + |Encode(v)|))
  {
    ReadEncoded(pre, v, post, 0, 0);
  }

  /** A value with a terminating byte k places on decodes exactly when its last group starts inside the word. */
  lemma {:induction false} ReadNeedsTenBytes(data: seq<Byte>, offset: nat, acc: nat, shift: nat, k: nat)
    requires offset + k < |data| && data[offset + k] < 128
    requires forall i | offset <= i < offset + k :: data[i] >= 128
    ensures Read(data, offset, acc, shift).Ok? <==> shift + 7 * k < 64
    ensures Read(data, offset, acc, shift).Ok? ==> Read(data, offset, acc, shift).value.1 == offset + k + 1
    ensures Read(data, offset, acc, shift).Err? ==> Read(data, offset, acc, shift).error == Panic
    decreases k
  {
    if k > 0 && shift < 64 {
      ReadNeedsTenBytes(data, offset + 1, Join(acc, data[offset] % 128, shift), shift + 7, k - 1);
    }
  }
}
