/**
 * The S.BUS frame decoder: one 25-byte frame in, 16 analog channels, two
 * digital channels, the frame-lost and failsafe flags out, plus running
 * frame counters (SBUSDecoder.java).
 *
 * Java `int` values are bit patterns here, so the frame bytes are `bv32`;
 * `<<`, `|`, `&` and the bit tests are then exact. Java's `>>` is arithmetic
 * and `bv32`'s is logical, but every right shift below is by at most 7 and is
 * followed by `& 0x7FF`, so the sign bits it could bring in never survive.
 * Channel values and counters are integers; the `long` counters do not
 * overflow in this model.
 */
module SbusDecoder {
  import opened Wrappers

  const FailsafeInactive: int := 0
  const FailsafeActive: int := 1
  const StartByte: bv32 := 0xF0
  const EndByte: bv32 := 0x00
  /** The value a set digital channel (17 or 18) reads as. */
  const DigitalHigh: int := 2047

  /** A frame as the decoder holds it: exactly 25 entries. */
  predicate IsFrame(b: seq<bv32>) { |b| == 25 }

  /** Every entry fits in a byte, as every byte built by the framer does. */
  predicate ByteValued(b: seq<bv32>) { forall i | 0 <= i < |b| :: b[i] <= 0xFF }

  // ---------------------------------------------------------------------
  // Bit reversal of an 11-bit channel value (reverseData)
  // ---------------------------------------------------------------------

  /** 1 << k for the bit positions reverseData visits. */
  function BitMask(k: nat): (m: bv32)
    requires k <= 11
  {
    match k
    case 0 => 0x001 case 1 => 0x002 case 2 => 0x004 case 3 => 0x008
    case 4 => 0x010 case 5 => 0x020 case 6 => 0x040 case 7 => 0x080
    case 8 => 0x100 case 9 => 0x200 case 10 => 0x400 case _ => 0x800
  }

  /** The same powers of two as integers. */
  function Weight(k: nat): (w: nat)
    requires k <= 11
  {
    match k
    case 0 => 1 case 1 => 2 case 2 => 4 case 3 => 8 case 4 => 16 case 5 => 32
    case 6 => 64 case 7 => 128 case 8 => 256 case 9 => 512 case 10 => 1024 case _ => 2048
  }

  /** Bit k of x is set. */
  predicate Bit(x: bv32, k: nat)
    requires k < 11
  {
    x & BitMask(k) != 0
  }

  /** The reference reversal: bit k of d moves to bit 10 - k, bits above 10 are dropped. */
  function Reverse11(d: bv32): (r: bv32)
    ensures r <= 0x7FF
  {
    ((d & 0x001) << 10) | ((d & 0x002) << 8) | ((d & 0x004) << 6) | ((d & 0x008) << 4) |
    ((d & 0x010) << 2) | (d & 0x020) | ((d & 0x040) >> 2) | ((d & 0x080) >> 4) |
    ((d & 0x100) >> 6) | ((d & 0x200) >> 8) | ((d & 0x400) >> 10)
  }

  lemma {:induction false} Reverse11Bits(d: bv32, k: nat)
    requires k < 11
    ensures Bit(Reverse11(d), 10 - k) <==> Bit(d, k)
  {
    if k == 0 {} else if k == 1 {} else if k == 2 {} else if k == 3 {} else if k == 4 {}
    else if k == 5 {} else if k == 6 {} else if k == 7 {} else if k == 8 {} else if k == 9 {} else {}
  }

  lemma Reverse11IgnoresHighBits(d: bv32)
    ensures Reverse11(d) == Reverse11(d & 0x7FF)
  {}

  lemma Reverse11Involutive(d: bv32)
    requires d <= 0x7FF
    ensures Reverse11(Reverse11(d)) == d
  {}

  /** What reverseData adds for bit k of d: 2^(10-k) if the bit is set. */
  function Mirrored(d: bv32, k: nat): int
    requires k < 11
  {
    if d & BitMask(k) > 0 then Weight(10 - k) else 0
  }

  /** reverseData's tmpData after it has looked at bits 0 .. j-1 of d. */
  function ReversedPrefix(d: bv32, j: nat): int
    requires j <= 11
  {
    if j == 0 then 0 else ReversedPrefix(d, j - 1) + Mirrored(d, j - 1)
  }

  lemma ReversedPrefixStep(d: bv32, j: nat, t: int, mask: bv32, i: int)
    requires j < 11 && mask == BitMask(j) && i == Weight(10 - j) && t == ReversedPrefix(d, j)
    ensures (if d & mask > 0 then t + i else t) == ReversedPrefix(d, j + 1)
  {}

  lemma {:induction false} MaskAndWeightStep(j: nat)
    requires j < 11
    ensures BitMask(j) << 1 == BitMask(j + 1)
    ensures j < 10 ==> Weight(10 - j) / 2 == Weight(9 - j) > 0
    ensures j == 10 ==> Weight(10 - j) / 2 == 0
  {
    if j == 0 {} else if j == 1 {} else if j == 2 {} else if j == 3 {} else if j == 4 {}
    else if j == 5 {} else if j == 6 {} else if j == 7 {} else if j == 8 {} else if j == 9 {} else {}
  }

  lemma {:induction false} ReversedPrefixUnrolled(d: bv32)
    ensures ReversedPrefix(d, 11) == Mirrored(d, 0) + Mirrored(d, 1) + Mirrored(d, 2) + Mirrored(d, 3) + Mirrored(d, 4) + Mirrored(d, 5) + Mirrored(d, 6) + Mirrored(d, 7) + Mirrored(d, 8) + Mirrored(d, 9) + Mirrored(d, 10)
  {
    assert ReversedPrefix(d, 1) == ReversedPrefix(d, 0) + Mirrored(d, 0);
    assert ReversedPrefix(d, 2) == ReversedPrefix(d, 1) + Mirrored(d, 1);
    assert ReversedPrefix(d, 3) == ReversedPrefix(d, 2) + Mirrored(d, 2);
    assert ReversedPrefix(d, 4) == ReversedPrefix(d, 3) + Mirrored(d, 3);
    assert ReversedPrefix(d, 5) == ReversedPrefix(d, 4) + Mirrored(d, 4);
    assert ReversedPrefix(d, 6) == ReversedPrefix(d, 5) + Mirrored(d, 5);
    assert ReversedPrefix(d, 7) == ReversedPrefix(d, 6) + Mirrored(d, 6);
    assert ReversedPrefix(d, 8) == ReversedPrefix(d, 7) + Mirrored(d, 7);
    assert ReversedPrefix(d, 9) == ReversedPrefix(d, 8) + Mirrored(d, 8);
    assert ReversedPrefix(d, 10) == ReversedPrefix(d, 9) + Mirrored(d, 9);
    assert ReversedPrefix(d, 11) == ReversedPrefix(d, 10) + Mirrored(d, 10);
  }

  lemma MirroredSumLow(d: bv32)
    ensures Mirrored(d, 0) + Mirrored(d, 1) + Mirrored(d, 2) + Mirrored(d, 3) + Mirrored(d, 4) + Mirrored(d, 5) == (Reverse11(d) & 0x7E0) as int
  {}

  lemma MirroredSumHigh(d: bv32)
    ensures Mirrored(d, 6) + Mirrored(d, 7) + Mirrored(d, 8) + Mirrored(d, 9) + Mirrored(d, 10) == (Reverse11(d) & 0x01F) as int
  {}

  lemma SplitAt5(r: bv32)
    ensures r & 0x7FF == r ==> r as int == (r & 0x7E0) as int + (r & 0x01F) as int
  {}

  lemma MirroredSum(d: bv32)
    ensures Mirrored(d, 0) + Mirrored(d, 1) + Mirrored(d, 2) + Mirrored(d, 3) + Mirrored(d, 4) + Mirrored(d, 5) + Mirrored(d, 6) + Mirrored(d, 7) + Mirrored(d, 8) + Mirrored(d, 9) + Mirrored(d, 10) == Reverse11(d) as int
  {
    MirroredSumLow(d);
    MirroredSumHigh(d);
    SplitAt5(Reverse11(d));
  }

  /** Once all eleven bits are seen, tmpData is the reference reversal. */
  lemma {:induction false} ReversedPrefixComplete(d: bv32)
    ensures ReversedPrefix(d, 11) == Reverse11(d) as int
  {
    ReversedPrefixUnrolled(d);
    MirroredSum(d);
  }

  // ---------------------------------------------------------------------
  // Channel extraction (process, lines 216-246)
  // ---------------------------------------------------------------------

  /** The 11-bit value of analog channel n before reversal, exactly as process() computes it. */
  function RawChannel(b: seq<bv32>, n: nat): (r: bv32)
    requires IsFrame(b) && n < 16
    ensures r <= 0x7FF
  {
    match n
    case 0  => ((b[1] << 3) | (b[2] >> 5))                   & 0x7FF
    case 1  => ((b[2] << 6) | (b[3] >> 2))                   & 0x7FF
    case 2  => ((b[3] << 9) | (b[4] << 2) | (b[5] >> 7))     & 0x7FF
    case 3  => ((b[5] << 4) | (b[6] >> 4))                   & 0x7FF
    case 4  => ((b[6] << 7) | (b[7] >> 1))                   & 0x7FF
    case 5  => ((b[7] << 10) | (b[8] << 2) | (b[9] >> 6))    & 0x7FF
    case 6  => ((b[9] << 5) | (b[10] >> 3))                  & 0x7FF
    case 7  => ((b[10] << 8) | b[11])                        & 0x7FF
    case 8  => ((b[12] << 3) | (b[13] >> 5))                 & 0x7FF
    case 9  => ((b[13] << 6) | (b[14] >> 2))                 & 0x7FF
    case 10 => ((b[14] << 9) | (b[15] << 1) | (b[16] >> 7))  & 0x7FF
    case 11 => ((b[16] << 4) | (b[17] >> 4))                 & 0x7FF
    case 12 => ((b[17] << 7) | (b[18] >> 1))                 & 0x7FF
    case 13 => ((b[18] << 10) | (b[19] << 2) | (b[20] >> 6)) & 0x7FF
    case 14 => ((b[20] << 5) | (b[21] >> 3))                 & 0x7FF
    case _  => ((b[21] << 8) | b[22])                        & 0x7FF
  }

  /** Analog channel n as process() leaves it: the reversed raw value. */
  function ChannelValue(b: seq<bv32>, n: nat): (v: int)
    requires IsFrame(b) && n < 16
    ensures 0 <= v <= 2047
  {
    Reverse11(RawChannel(b, n)) as int
  }

  /** Digital channel 17 or 18: 2047 when its flag bit in byte 23 is set, else 0. */
  function DigitalChannel(flags: bv32, bit: bv32): (v: int)
    ensures v == 0 || v == DigitalHigh
  {
    if flags & bit > 0 then DigitalHigh else 0
  }

  /** All 18 channels of a frame with valid markers. */
  function Channels(b: seq<bv32>): (c: seq<int>)
    requires IsFrame(b)
    ensures |c| == 18
    ensures forall n | 0 <= n < 18 :: 0 <= c[n] <= 2047
    ensures c[16] == DigitalHigh <==> b[23] & 0x80 != 0
    ensures c[17] == DigitalHigh <==> b[23] & 0x40 != 0
    ensures c[16] == 0 <==> b[23] & 0x80 == 0
    ensures c[17] == 0 <==> b[23] & 0x40 == 0
  {
    seq(16, n requires 0 <= n < 16 => ChannelValue(b, n)) + [DigitalChannel(b[23], 0x80), DigitalChannel(b[23], 0x40)]
  }

  lemma ChannelsFrom(b: seq<bv32>, c: seq<int>)
    requires IsFrame(b) && |c| == 18
    requires forall k | 0 <= k < 16 :: c[k] == ChannelValue(b, k)
    requires c[16] == DigitalChannel(b[23], 0x80) && c[17] == DigitalChannel(b[23], 0x40)
    ensures c == Channels(b)
  {}

  /** The start and end markers are in place. */
  predicate MarkersOk(b: seq<bv32>)
    requires IsFrame(b)
  {
    b[0] == StartByte && b[24] == EndByte
  }

  /** What a decoder exposes besides its frame bytes (the fields toString() prints). */
  datatype DecoderState = DecoderState(
    channels: seq<int>,
    failsafe: int,
    goodFrames: nat,
    lostFrames: nat,
    decoderErrorFrames: nat)

  /** The state of a decoder before any frame: all channels 0, failsafe inactive, counters 0. */
  function InitialState(): (s: DecoderState)
    ensures |s.channels| == 18 && forall n | 0 <= n < 18 :: s.channels[n] == 0
    ensures s.goodFrames + s.lostFrames + s.decoderErrorFrames == 0
  {
    DecoderState(seq(18, _ => 0), FailsafeInactive, 0, 0, 0)
  }

  /** One call of process() on frame b, from state s. */
  function Decode(b: seq<bv32>, s: DecoderState): (t: DecoderState)
    requires IsFrame(b)
    // exactly one of goodFrames and decoderErrorFrames grows, by one
    ensures t.goodFrames + t.decoderErrorFrames == s.goodFrames + s.decoderErrorFrames + 1
    ensures t.goodFrames >= s.goodFrames && t.decoderErrorFrames >= s.decoderErrorFrames
    // a frame with a bad marker only counts as a decoder error
    ensures !MarkersOk(b) <==> t == s.(decoderErrorFrames := s.decoderErrorFrames + 1)
    ensures MarkersOk(b) ==> t.goodFrames == s.goodFrames + 1 && t.channels == Channels(b)
    ensures t.lostFrames == s.lostFrames + 1 <==> MarkersOk(b) && b[23] & 0x20 != 0
    ensures t.lostFrames == s.lostFrames || t.lostFrames == s.lostFrames + 1
    ensures MarkersOk(b) ==> (t.failsafe == FailsafeActive <==> b[23] & 0x10 != 0)
    ensures MarkersOk(b) ==> (t.failsafe == FailsafeInactive <==> b[23] & 0x10 == 0)
    // lostFrames can only grow together with goodFrames
    ensures s.lostFrames <= s.goodFrames ==> t.lostFrames <= t.goodFrames
  {
    if !MarkersOk(b) then
      s.(decoderErrorFrames := s.decoderErrorFrames + 1)
    else
      DecoderState(
        Channels(b),
        if b[23] & 0x10 > 0 then FailsafeActive else FailsafeInactive,
        s.goodFrames + 1,
        if b[23] & 0x20 > 0 then s.lostFrames + 1 else s.lostFrames,
        s.decoderErrorFrames)
  }

  /** The state process() builds from a frame whose markers are in place. */
  lemma AcceptedFrame(b: seq<bv32>, s: DecoderState, t: DecoderState)
    requires IsFrame(b) && MarkersOk(b)
    requires t.channels == Channels(b)
    requires t.failsafe == (if b[23] & 0x10 > 0 then FailsafeActive else FailsafeInactive)
    requires t.goodFrames == s.goodFrames + 1 && t.decoderErrorFrames == s.decoderErrorFrames
    requires t.lostFrames == (if b[23] & 0x20 > 0 then s.lostFrames + 1 else s.lostFrames)
    ensures t == Decode(b, s)
  {}

  /** A rejected frame right after setInfoBytes leaves every channel at 0. */
  lemma RejectedFrameKeepsClearedChannels(b: seq<bv32>, s: DecoderState)
    requires IsFrame(b) && !MarkersOk(b)
    requires s.channels == seq(18, _ => 0)
    ensures forall n | 0 <= n < 18 :: Decode(b, s).channels[n] == 0
  {}

  // ---------------------------------------------------------------------
  // Frame loss percentage (getFrameLoss)
  // ---------------------------------------------------------------------

  lemma MulLe(a: int, b: int, t: nat)
    requires a <= b
    ensures a * t <= b * t
  {}

  /** a / t <= b whenever a <= b * t. */
  lemma DivAtMost(a: nat, b: int, t: nat)
    requires 0 < t && a <= b * t
    ensures a / t <= b
  {
    var q := a / t;
    assert q * t + a % t == a;
    if q > b {
      MulLe(b + 1, q, t);
    }
  }

  /** a / t < b whenever a < b * t. */
  lemma DivBelow(a: nat, b: int, t: nat)
    requires 0 < t && a < b * t
    ensures a / t < b
  {
    var q := a / t;
    assert q * t + a % t == a;
    if q >= b {
      MulLe(b, q, t);
    }
  }

  /** b <= a / t whenever b * t <= a. */
  lemma DivAtLeast(a: nat, b: int, t: nat)
    requires 0 < t && b * t <= a
    ensures b <= a / t
  {
    var q := a / t;
    assert q * t + a % t == a;
    if q < b {
      MulLe(q + 1, b, t);
    }
  }

  /** (lost + err) * 100 / (good + lost + err) in integer division; ArithmeticException when the sum is 0. */
  function FrameLossPercent(good: nat, lost: nat, err: nat): (r: Result<int>)
    ensures r.Err? <==> good + lost + err == 0
    ensures r.Err? ==> r.error == Arithmetic
    ensures r.Ok? ==> 0 <= r.value <= 100
    ensures r.Ok? ==> (r.value == 100 <==> good == 0)
  {
    var total := good + lost + err;
    var x := lost + err;
    if total == 0 then Err(Arithmetic)
    else
      DivAtMost(x * 100, 100, total);
      if good > 0 then
        DivBelow(x * 100, 100, total);
        Ok((x * 100) / total)
      else
        DivAtLeast(x * 100, 100, total);
        Ok((x * 100) / total)
  }

  /** x * 100 / t never decreases when both x and t grow by one (x <= t). */
  lemma {:induction false} PercentGrowsWithBoth(x: nat, t: nat)
    requires 0 < t && x <= t
    ensures x * 100 / t <= (x + 1) * 100 / (t + 1)
  {
    var q := x * 100 / t;
    DivAtMost(x * 100, 100, t);
    assert q * t <= x * 100;
    assert q * (t + 1) == q * t + q;
    DivAtLeast((x + 1) * 100, q, t + 1);
  }

  /** x * 100 / t never grows when only t grows by one. */
  lemma {:induction false} PercentShrinksWithTotal(x: nat, t: nat)
    requires 0 < t
    ensures x * 100 / (t + 1) <= x * 100 / t
  {
    var q := x * 100 / (t + 1);
    assert q * (t + 1) <= x * 100;
    assert q * (t + 1) == q * t + q;
    DivAtLeast(x * 100, q, t);
  }

  /** An error frame never lowers the frame-loss percentage, and a good frame without the lost flag never raises it. */
  lemma FrameLossMonotone(b: seq<bv32>, s: DecoderState)
    requires IsFrame(b) && s.goodFrames + s.lostFrames + s.decoderErrorFrames > 0
    ensures
      var before := FrameLossPercent(s.goodFrames, s.lostFrames, s.decoderErrorFrames).value;
      var t := Decode(b, s);
      var after := FrameLossPercent(t.goodFrames, t.lostFrames, t.decoderErrorFrames).value;
      (!MarkersOk(b) ==> before <= after) && (MarkersOk(b) && b[23] & 0x20 == 0 ==> after <= before)
  {
    var x := s.lostFrames + s.decoderErrorFrames;
    var total := s.goodFrames + x;
    if !MarkersOk(b) {
      PercentGrowsWithBoth(x, total);
    } else if b[23] & 0x20 == 0 {
      PercentShrinksWithTotal(x, total);
    }
  }

  // ---------------------------------------------------------------------
  // Where each channel's bits sit in the frame (SBUSAnalyser.java:38-45)
  // ---------------------------------------------------------------------

  /** Bit k (0 = least significant) of x, as 0 or 1. */
  function ByteBit(x: bv32, k: nat): (r: bv32)
    requires k < 8
    ensures r <= 1
  {
    match k
    case 0 => x & 1 case 1 => (x >> 1) & 1 case 2 => (x >> 2) & 1 case 3 => (x >> 3) & 1
    case 4 => (x >> 4) & 1 case 5 => (x >> 5) & 1 case 6 => (x >> 6) & 1 case _ => (x >> 7) & 1
  }

  /**
   * Bit p of the 176-bit payload carried by data1 .. data22, counted in
   * sampling order: the framer fills each byte from its most significant bit,
   * so payload bit p is bit 7 - p % 8 of byte 1 + p / 8.
   */
  function PayloadBit(b: seq<bv32>, p: nat): (r: bv32)
    requires IsFrame(b) && p < 176
    ensures r <= 1
  {
    ByteBit(b[1 + p / 8], 7 - p % 8)
  }

  /**
   * Payload bits 11n .. 11n+10, the first of them most significant: the
   * group analog channel n occupies, in the order process() assembles it
   * before reverseData restores the least-significant-first wire order.
   */
  function PayloadGroup(b: seq<bv32>, n: nat): (r: bv32)
    requires IsFrame(b) && n < 16
    ensures r <= 0x7FF
  {
    var p := 11 * n;
    (PayloadBit(b, p) << 10) | (PayloadBit(b, p + 1) << 9) | (PayloadBit(b, p + 2) << 8) |
    (PayloadBit(b, p + 3) << 7) | (PayloadBit(b, p + 4) << 6) | (PayloadBit(b, p + 5) << 5) |
    (PayloadBit(b, p + 6) << 4) | (PayloadBit(b, p + 7) << 3) | (PayloadBit(b, p + 8) << 2) |
    (PayloadBit(b, p + 9) << 1) | PayloadBit(b, p + 10)
  }

  lemma Channel0Layout(b: seq<bv32>)
    requires IsFrame(b) && ByteValued(b)
    ensures RawChannel(b, 0) == PayloadGroup(b, 0)
  {}

  lemma Channel1Layout(b: seq<bv32>)
    requires IsFrame(b) && ByteValued(b)
    ensures RawChannel(b, 1) == PayloadGroup(b, 1)
  {}

  lemma Channel3Layout(b: seq<bv32>)
    requires IsFrame(b) && ByteValued(b)
    ensures RawChannel(b, 3) == PayloadGroup(b, 3)
  {}

  lemma Channel4Layout(b: seq<bv32>)
    requires IsFrame(b) && ByteValued(b)
    ensures RawChannel(b, 4) == PayloadGroup(b, 4)
  {}

  lemma Channel5Layout(b: seq<bv32>)
    requires IsFrame(b) && ByteValued(b)
    ensures RawChannel(b, 5) == PayloadGroup(b, 5)
  {}

  lemma Channel6Layout(b: seq<bv32>)
    requires IsFrame(b) && ByteValued(b)
    ensures RawChannel(b, 6) == PayloadGroup(b, 6)
  {}

  lemma Channel7Layout(b: seq<bv32>)
    requires IsFrame(b) && ByteValued(b)
    ensures RawChannel(b, 7) == PayloadGroup(b, 7)
  {}

  lemma Channel8Layout(b: seq<bv32>)
    requires IsFrame(b) && ByteValued(b)
    ensures RawChannel(b, 8) == PayloadGroup(b, 8)
  {}

  lemma Channel9Layout(b: seq<bv32>)
    requires IsFrame(b) && ByteValued(b)
    ensures RawChannel(b, 9) == PayloadGroup(b, 9)
  {}

  lemma Channel10Layout(b: seq<bv32>)
    requires IsFrame(b) && ByteValued(b)
    ensures RawChannel(b, 10) == PayloadGroup(b, 10)
  {}

  lemma Channel11Layout(b: seq<bv32>)
    requires IsFrame(b) && ByteValued(b)
    ensures RawChannel(b, 11) == PayloadGroup(b, 11)
  {}

  lemma Channel12Layout(b: seq<bv32>)
    requires IsFrame(b) && ByteValued(b)
    ensures RawChannel(b, 12) == PayloadGroup(b, 12)
  {}

  lemma Channel13Layout(b: seq<bv32>)
    requires IsFrame(b) && ByteValued(b)
    ensures RawChannel(b, 13) == PayloadGroup(b, 13)
  {}

  lemma Channel14Layout(b: seq<bv32>)
    requires IsFrame(b) && ByteValued(b)
    ensures RawChannel(b, 14) == PayloadGroup(b, 14)
  {}

  lemma Channel15Layout(b: seq<bv32>)
    requires IsFrame(b) && ByteValued(b)
    ensures RawChannel(b, 15) == PayloadGroup(b, 15)
  {}

  /** Every analog channel but the third reads exactly its own 11-bit group. */
  lemma ChannelLayout(b: seq<bv32>, n: nat)
    requires IsFrame(b) && ByteValued(b) && n < 16 && n != 2
    ensures RawChannel(b, n) == PayloadGroup(b, n)
  {
    if n == 0 { Channel0Layout(b); }
    else if n == 1 { Channel1Layout(b); }
    else if n == 3 { Channel3Layout(b); }
    else if n == 4 { Channel4Layout(b); }
    else if n == 5 { Channel5Layout(b); }
    else if n == 6 { Channel6Layout(b); }
    else if n == 7 { Channel7Layout(b); }
    else if n == 8 { Channel8Layout(b); }
    else if n == 9 { Channel9Layout(b); }
    else if n == 10 { Channel10Layout(b); }
    else if n == 11 { Channel11Layout(b); }
    else if n == 12 { Channel12Layout(b); }
    else if n == 13 { Channel13Layout(b); }
    else if n == 14 { Channel14Layout(b); }
    else { Channel15Layout(b); }
  }

  /** Hence every decoded analog channel but the third is its group read least significant bit first. */
  lemma DecodedChannelLayout(b: seq<bv32>, n: nat)
    requires IsFrame(b) && ByteValued(b) && n < 16 && n != 2
    ensures ChannelValue(b, n) == Reverse11(PayloadGroup(b, n)) as int
  {
    ChannelLayout(b, n);
  }

  /** A frame whose only payload bit is bit 24 (the top bit of data4), which belongs to the third channel. */
  const ThirdChannelWitness: seq<bv32> := [StartByte, 0, 0, 0, 0x80] + seq(20, _ => 0)

  /** Line 218 shifts data4 by 2 where the layout needs 1: that bit lands one place too high. */
  lemma ThirdChannelMisread()
    ensures IsFrame(ThirdChannelWitness) && ByteValued(ThirdChannelWitness)
    ensures PayloadGroup(ThirdChannelWitness, 2) == 0x100
    ensures RawChannel(ThirdChannelWitness, 2) == 0x200
    ensures RawChannel(ThirdChannelWitness, 2) != PayloadGroup(ThirdChannelWitness, 2)
  {
    var w := ThirdChannelWitness;
    assert w[3] == 0 && w[4] == 0x80 && w[5] == 0;
    assert PayloadBit(w, 24) == 1;
  }

  /** The third channel as the layout requires it: data4 shifted by 1, like data15 for the eleventh. */
  function CorrectedRawChannel(b: seq<bv32>, n: nat): (r: bv32)
    requires IsFrame(b) && n < 16
    ensures r <= 0x7FF
  {
    if n == 2 then ((b[3] << 9) | (b[4] << 1) | (b[5] >> 7)) & 0x7FF else RawChannel(b, n)
  }

  lemma CorrectedChannel2Layout(b: seq<bv32>)
    requires IsFrame(b) && ByteValued(b)
    ensures CorrectedRawChannel(b, 2) == PayloadGroup(b, 2)
  {}

  /** With the correction every analog channel reads exactly its own group. */
  lemma CorrectedChannelLayout(b: seq<bv32>, n: nat)
    requires IsFrame(b) && ByteValued(b) && n < 16
    ensures CorrectedRawChannel(b, n) == PayloadGroup(b, n)
  {
    if n == 2 {
      CorrectedChannel2Layout(b);
    } else {
      ChannelLayout(b, n);
    }
  }

  // ---------------------------------------------------------------------
  // toString(): Long.toString and Arrays.toString of the channel array
  // ---------------------------------------------------------------------

  predicate IsDigit(c: char) { '0' <= c <= '9' }

  function DigitChar(d: int): (c: char)
    requires 0 <= d < 10
    ensures IsDigit(c) && c as int - '0' as int == d
  {
    ('0' as int + d) as char
  }

  /** The decimal digits of n, most significant first, without leading zeros. */
  function Decimal(n: nat): (s: string)
    ensures |s| > 0 && forall i | 0 <= i < |s| :: IsDigit(s[i])
    ensures n > 0 ==> s[0] != '0'
    ensures n >= 10 <==> |s| > 1
    decreases n
  {
    if n < 10 then [DigitChar(n)] else Decimal(n / 10) + [DigitChar(n % 10)]
  }

  /** Reads a string of decimal digits back as a number. */
  function ParseDecimal(s: string): nat
    requires forall i | 0 <= i < |s| :: IsDigit(s[i])
    decreases |s|
  {
    if s == [] then 0
    else
      assert IsDigit(s[|s| - 1]);
      ParseDecimal(s[..|s| - 1]) * 10 + (s[|s| - 1] as int - '0' as int)
  }

  lemma {:induction false} DecimalRoundTrip(n: nat)
    ensures ParseDecimal(Decimal(n)) == n
    decreases n
  {
    if n >= 10 {
      DecimalRoundTrip(n / 10);
      var s := Decimal(n);
      assert s[..|s| - 1] == Decimal(n / 10);
    }
  }

  /** Long.toString: a minus sign before the digits of a negative number. */
  function IntString(n: int): (s: string)
    ensures |s| > 0 && (s[0] == '-' <==> n < 0)
    ensures forall i | 0 < i < |s| :: IsDigit(s[i])
  {
    if n < 0 then "-" + Decimal(-n) else Decimal(n)
  }

  /** Reads IntString's form back. */
  function ParseInt(s: string): int
    requires |s| > 0 && forall i | 0 < i < |s| :: IsDigit(s[i])
    requires s[0] == '-' || IsDigit(s[0])
  {
    if s[0] == '-' then -(ParseDecimal(s[1..]) as int) else ParseDecimal(s)
  }

  lemma IntStringRoundTrip(n: int)
    ensures ParseInt(IntString(n)) == n
  {
    if n < 0 {
      DecimalRoundTrip(-n);
      assert IntString(n)[1..] == Decimal(-n);
    } else {
      DecimalRoundTrip(n);
    }
  }

  /** The list body of Arrays.toString: the items joined by ", ". */
  function Items(xs: seq<int>): string
    decreases |xs|
  {
    if xs == [] then ""
    else if |xs| == 1 then IntString(xs[0])
    else Items(xs[..|xs| - 1]) + ", " + IntString(xs[|xs| - 1])
  }

  /** Arrays.toString(int[]): "[1, 2, 3]". */
  function ListString(xs: seq<int>): (s: string)
    ensures |s| >= 2 && s[0] == '[' && s[|s| - 1] == ']'
  {
    "[" + Items(xs) + "]"
  }

  function CommaCount(s: string): nat
    decreases |s|
  {
    if s == [] then 0 else CommaCount(s[..|s| - 1]) + (if s[|s| - 1] == ',' then 1 else 0)
  }

  lemma {:induction false} CommaCountAppend(s: string, t: string)
    ensures CommaCount(s + t) == CommaCount(s) + CommaCount(t)
    decreases |t|
  {
    if t == [] {
      assert s + t == s;
    } else {
      CommaCountAppend(s, t[..|t| - 1]);
      assert (s + t)[..|s + t| - 1] == s + t[..|t| - 1];
    }
  }

  lemma {:induction false} NoCommaInNumber(s: string)
    requires forall i | 0 <= i < |s| :: IsDigit(s[i]) || s[i] == '-'
    ensures CommaCount(s) == 0
    decreases |s|
  {
    if s != [] {
      NoCommaInNumber(s[..|s| - 1]);
    }
  }

  /** The rendered list holds one comma fewer than it has items: every item is printed, once. */
  lemma {:induction false} ItemsCommas(xs: seq<int>)
    ensures CommaCount(Items(xs)) == if xs == [] then 0 else |xs| - 1
    decreases |xs|
  {
    if xs != [] {
      var last := IntString(xs[|xs| - 1]);
      NoCommaInNumber(last);
      if |xs| > 1 {
        ItemsCommas(xs[..|xs| - 1]);
        CommaCountAppend(Items(xs[..|xs| - 1]), ", ");
        CommaCountAppend(Items(xs[..|xs| - 1]) + ", ", last);
        assert CommaCount(", ") == 1;
      }
    }
  }

  /** The text toString() builds from a decoder's state. */
  function Describe(s: DecoderState): string
  {
    "Channels=" + ListString(s.channels) + " failsafe=" + IntString(s.failsafe) +
    ", goodFrames=" + IntString(s.goodFrames) + ", lostFrames=" + IntString(s.lostFrames) +
    ", decoderErrorFrames=" + IntString(s.decoderErrorFrames)
  }

  // ---------------------------------------------------------------------
  // The decoder object
  // ---------------------------------------------------------------------

  class Decoder {
    var infoBytes: array<bv32>
    var channels: array<int>
    var failsafe: int
    var goodFrames: nat
    var lostFrames: nat
    var decoderErrorFrames: nat

    ghost predicate Valid()
      reads this, channels
    {
      infoBytes.Length == 25 && channels.Length == 18 &&
      (forall n | 0 <= n < 18 :: 0 <= channels[n] <= 2047) &&
      (failsafe == FailsafeInactive || failsafe == FailsafeActive) &&
      lostFrames <= goodFrames
    }

    /** The decoder's observable state. */
    function State(): (s: DecoderState)
      reads this, channels
    {
      DecoderState(channels[..], failsafe, goodFrames, lostFrames, decoderErrorFrames)
    }

    /** SBUSDecoder(): all 25 bytes 0. */
    constructor ()
      ensures Valid() && fresh(infoBytes) && fresh(channels)
      ensures infoBytes[..] == seq(25, _ => 0)
      ensures State() == InitialState()
    {
      infoBytes := new bv32[25](_ => 0);
      channels := new int[18](_ => 0);
      failsafe := FailsafeInactive;
      goodFrames, lostFrames, decoderErrorFrames := 0, 0, 0;
    }

    /** SBUSDecoder(List): InputMismatchException unless the list has 25 entries. */
    static method FromList(list: seq<bv32>) returns (r: Result<Decoder>)
      ensures r.Err? <==> |list| != 25
      ensures r.Err? ==> r.error == InputMismatch
      ensures r.Ok? ==> fresh(r.value) && fresh(r.value.infoBytes) && fresh(r.value.channels)
      ensures r.Ok? ==> r.value.Valid() && r.value.infoBytes[..] == list && r.value.State() == InitialState()
    {
      if |list| != 25 {
        return Err(InputMismatch);
      }
      var d := new Decoder();
      var i := 0;
      while i < 25
        invariant 0 <= i <= 25
        invariant d.infoBytes[..i] == list[..i]
        invariant d.Valid() && d.State() == InitialState()
        modifies d.infoBytes
      {
        d.infoBytes[i] := list[i];
        i := i + 1;
      }
      assert d.infoBytes[..] == d.infoBytes[..25];
      return Ok(d);
    }

    /**
     * SBUSDecoder(int[], int): InputMismatchException unless size is 25, then
     * an array index exception when the array holds fewer than 25 entries.
     */
    static method FromArray(a: array<bv32>, size: int) returns (r: Result<Decoder>)
      ensures r.Err? <==> size != 25 || a.Length < 25
      ensures r.Err? ==> r.error == (if size != 25 then InputMismatch else IndexOutOfBounds)
      ensures r.Ok? ==> fresh(r.value) && fresh(r.value.infoBytes) && fresh(r.value.channels)
      ensures r.Ok? ==> r.value.Valid() && r.value.infoBytes[..] == a[..25] && r.value.State() == InitialState()
    {
      if size != 25 {
        return Err(InputMismatch);
      }
      var d := new Decoder();
      var i := 0;
      while i < 25
        invariant 0 <= i <= 25 && i <= a.Length
        invariant d.infoBytes[..i] == a[..i]
        invariant d.Valid() && d.State() == InitialState()
        modifies d.infoBytes
      {
        if i == a.Length {
          return Err(IndexOutOfBounds);
        }
        d.infoBytes[i] := a[i];
        i := i + 1;
      }
      assert d.infoBytes[..] == d.infoBytes[..25];
      return Ok(d);
    }

    /** getInfoBytes hands out the decoder's own array, not a copy. */
    method GetInfoBytes() returns (a: array<bv32>)
      ensures a == infoBytes
    {
      a := infoBytes;
    }

    /** setInfoBytes: InputMismatchException unless 25 entries; otherwise copy them and clear all channels. */
    method SetInfoBytes(list: seq<bv32>) returns (outcome: Outcome)
      requires Valid()
      modifies infoBytes, channels
      ensures Valid()
      ensures outcome == (if |list| == 25 then Pass else Fail(InputMismatch))
      ensures |list| != 25 ==> infoBytes[..] == old(infoBytes[..]) && channels[..] == old(channels[..])
      ensures |list| == 25 ==> infoBytes[..] == list && channels[..] == seq(18, _ => 0)
    {
      if |list| != 25 {
        return Fail(InputMismatch);
      }
      var i := 0;
      while i < 25
        invariant 0 <= i <= 25
        invariant infoBytes[..i] == list[..i]
        modifies infoBytes
      {
        infoBytes[i] := list[i];
        i := i + 1;
      }
      var n := 0;
      while n < 18
        invariant 0 <= n <= 18
        invariant forall k | 0 <= k < n :: channels[k] == 0
        invariant forall k | n <= k < 18 :: channels[k] == old(channels[k])
        modifies channels
      {
        channels[n] := 0;
        n := n + 1;
      }
      assert infoBytes[..] == infoBytes[..25];
      return Pass;
    }

    /** reverseData: walks mask up from bit 0 while i walks down from 0x400. */
    method ReverseData(data: bv32) returns (r: int)
      ensures r == Reverse11(data) as int
    {
      var tmpData := 0;
      var mask: bv32 := 1;
      var i := 0x400;
      ghost var j: nat := 0;
      while i > 0
        invariant j <= 11 && mask == BitMask(j)
        invariant j < 11 ==> i == Weight(10 - j) && i > 0
        invariant j == 11 ==> i == 0
        invariant tmpData == ReversedPrefix(data, j)
      {
        ReversedPrefixStep(data, j, tmpData, mask, i);
        MaskAndWeightStep(j);
        if data & mask > 0 {
          tmpData := tmpData + i;
        }
        mask := mask << 1;
        i := i / 2;   // i >>= 1 on a positive int
        j := j + 1;
      }
      ReversedPrefixComplete(data);
      r := tmpData;
    }

    /** process: decode the frame held in infoBytes. */
    method Process()
      requires Valid()
      modifies this, channels
      ensures Valid() && infoBytes == old(infoBytes) && channels == old(channels)
      ensures State() == Decode(infoBytes[..], old(State()))
    {
      ghost var before := State();
      if infoBytes[0] != StartByte || infoBytes[24] != EndByte {
        decoderErrorFrames := decoderErrorFrames + 1;
        return;
      }
      goodFrames := goodFrames + 1;
      DecodeAnalogChannels();
      channels[16] := DigitalChannel(infoBytes[23], 0x80);
      channels[17] := DigitalChannel(infoBytes[23], 0x40);
      lostFrames := if infoBytes[23] & 0x20 > 0 then lostFrames + 1 else lostFrames;
      failsafe := if infoBytes[23] & 0x10 > 0 then FailsafeActive else FailsafeInactive;
      ChannelsFrom(infoBytes[..], channels[..]);
      AcceptedFrame(infoBytes[..], before, State());
    }

    /** The sixteen analog channels of process(): the raw values of lines 216-232, each reversed (lines 235-236). */
    method DecodeAnalogChannels()
      requires infoBytes.Length == 25 && channels.Length == 18
      modifies channels
      ensures forall k | 0 <= k < 16 :: channels[k] == ChannelValue(infoBytes[..], k)
      ensures channels[16] == old(channels[16]) && channels[17] == old(channels[17])
    {
      var n := 0;
      while n < 16
        invariant 0 <= n <= 16
        invariant forall k | 0 <= k < n :: channels[k] == ChannelValue(infoBytes[..], k)
        invariant forall k | n <= k < 18 :: channels[k] == old(channels[k])
      {
        var v := ReverseData(RawChannel(infoBytes[..], n));
        channels[n] := v;
        n := n + 1;
      }
    }

    /** getChannel: channels are numbered 1 .. 18; anything else reads as 0. */
    function GetChannel(channel: int): (v: int)
      reads this, channels
      requires Valid()
      ensures 0 <= v <= 2047
      ensures (channel < 1 || channel > 18) ==> v == 0
      ensures 1 <= channel <= 18 ==> v == State().channels[channel - 1]
    {
      if channel < 1 || channel > 18 then 0 else channels[channel - 1]
    }

    function GetFailsafeStatus(): (f: int)
      reads this, channels
      requires Valid()
      ensures f == FailsafeInactive || f == FailsafeActive
      ensures f == State().failsafe
    {
      failsafe
    }

    /** toString(): the channels, the failsafe flag and the three counters. */
    function ToString(): string
      reads this, channels
    {
      Describe(State())
    }

    function GetFrameLoss(): (r: Result<int>)
      reads this
    {
      FrameLossPercent(goodFrames, lostFrames, decoderErrorFrames)
    }

    function GetGoodFrames(): (n: nat)
      reads this
    {
      goodFrames
    }

    function GetLostFrames(): (n: nat)
      reads this, channels
      requires Valid()
      ensures n <= GetGoodFrames()
    {
      lostFrames
    }

    function GetDecoderErrorFrames(): (n: nat)
      reads this
    {
      decoderErrorFrames
    }
  }
}
