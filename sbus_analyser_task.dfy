/**
 * The S.BUS analysis pipeline (SBUSAnalyserTask.java).
 *
 * The resampler turns the captured edge list of the data line into one
 * sample per bit period, 300 samples a frame plus a synthetic end marker.
 * The framer reads that stream in 12-sample windows (start bit, 8 data
 * bits, parity, 2 stop bits), hands each run of 25 bytes to the frame
 * decoder and appends the windows and the per-frame events to a data set.
 * call() runs both only when the sample rate is at least 200 kHz.
 *
 * The Java code divides and compares in float and double; here those are
 * the integer forms: samplesPerBitPeriod is sampleRate / 100000,
 * Math.round(dt / spbp) is (2 * dt + spbp) / (2 * spbp), and the framer's
 * dt <= sampleRate * 1e-5 is dt * 100000 <= sampleRate.
 */
module SbusAnalyserTask {
  import opened Wrappers
  import opened SbusDecoder
  import opened SbusData
  import opened SbusDataSet

  const BitsPerFrame: int := 300
  const FrameDecodedEvent: string := "FRAME DECODED"
  const FrameLostEvent: string := "FRAME LOST"
  /** call() decodes only at or above this sample rate (in Hz). */
  const MinSampleRate: int := 200000
  /** Bytes handed to the frame decoder per frame; a window holds one byte in bits 3 .. 10. */
  const BytesPerFrame: int := 25

  /** What the tool reads from the acquisition: one value and one timestamp per edge. */
  datatype Acquisition = Acquisition(values: seq<bv32>, timestamps: seq<int>, sampleRate: int)

  /** Acquisitions pair every value with a timestamp, in time order. */
  predicate WellFormed(a: Acquisition)
  {
    |a.values| == |a.timestamps| &&
    forall i | 0 < i < |a.timestamps| :: Interval(a, i) >= 0
  }

  /** The CapturedData the resampler builds. */
  datatype Captured = Captured(
    values: seq<bv32>,
    timestamps: seq<int>,
    triggerPosition: int,
    sampleRate: int,
    channels: int,
    enabledChannels: int,
    absoluteLength: int)

  /** 1 << dataIdx; Java takes the shift distance modulo 32. */
  function DataMask(dataIdx: int): (m: bv32)
  {
    (1 as bv32) << (dataIdx % 32)
  }

  /** The time from edge i - 1 to edge i. */
  function Interval(a: Acquisition, i: int): int
    requires 0 < i < |a.timestamps|
  {
    a.timestamps[i] - a.timestamps[i - 1]
  }

  /** samplesPerBitPeriod: (int)(sampleRate * 10e-6). */
  function SamplesPerBit(rate: int): int
  {
    rate / 100000
  }

  /** samplesPerFrame: BITS_PER_FRAME bit periods. */
  function SamplesPerFrame(rate: int): int
  {
    300 * SamplesPerBit(rate)
  }

  /** Math.round(dt / spbp) for spbp > 0, rounding halves up. */
  function Round(dt: int, spbp: int): (n: int)
    requires spbp > 0
    ensures dt >= 0 ==> n >= 0
  {
    if dt >= 0 then DivAtLeast(2 * dt + spbp, 0, 2 * spbp); (2 * dt + spbp) / (2 * spbp)
    else (2 * dt + spbp) / (2 * spbp)
  }

  /** (values[i] ^ 0xFF) & dataMask: the inverted level that edge i holds. */
  function Level(v: bv32, mask: bv32): bv32
  {
    (v ^ 0xFF) & mask
  }

  /** The start time of bit `bit` of a run that begins at time t. */
  function Stamp(t: int, spbp: int, bit: int): int
  {
    t + spbp * bit
  }

  /** A resampled value and timestamp come from one input edge and one bit of the run after it. */
  ghost predicate SampledFrom(a: Acquisition, mask: bv32, spbp: int, v: bv32, t: int)
  {
    exists i, bit | 0 <= i < |a.values| && i < |a.timestamps| && 0 <= bit < BitsPerFrame ::
      v == Level(a.values[i], mask) && t == Stamp(a.timestamps[i], spbp, bit)
  }

  /** Every sample of vs, ts is drawn from the input. */
  ghost predicate AllSampled(a: Acquisition, mask: bv32, spbp: int, vs: seq<bv32>, ts: seq<int>)
  {
    |vs| == |ts| && forall k | 0 <= k < |vs| :: SampledFrom(a, mask, spbp, vs[k], ts[k])
  }

  /** A frame begins after edge i - 1 when the line was idle for longer than a whole frame. */
  predicate FrameGapAt(a: Acquisition, i: int)
    requires 0 < i < |a.timestamps|
  {
    Interval(a, i) > SamplesPerFrame(a.sampleRate)
  }

  /** One resampled frame: 300 samples drawn from the input, then the end marker one bit period after the last. */
  ghost predicate FrameBlock(a: Acquisition, mask: bv32, spbp: int, vs: seq<bv32>, ts: seq<int>)
  {
    |vs| == 301 && |ts| == 301 && vs[300] == 1 && ts[300] == ts[299] + spbp &&
    AllSampled(a, mask, spbp, vs[..300], ts[..300])
  }

  /** Frame f of a resampled stream: its 301 slots from 301 * f on. */
  function Chunk<T>(s: seq<T>, f: int): (c: seq<T>)
    requires 0 <= f && 301 * f + 301 <= |s|
    ensures |c| == 301
  {
    s[301 * f..301 * f + 301]
  }

  /** vs and ts hold exactly `frames` resampled frames, one after the other. */
  ghost predicate FramesUpTo(a: Acquisition, mask: bv32, spbp: int, vs: seq<bv32>, ts: seq<int>, frames: int)
  {
    frames >= 0 && |vs| == 301 * frames && |ts| == |vs| &&
    forall f | 0 <= f < frames :: FrameBlock(a, mask, spbp, Chunk(vs, f), Chunk(ts, f))
  }

  /** The resampled output is a sequence of 301-slot frames with end markers, every other slot drawn from the input. */
  ghost predicate Framed(c: Captured, a: Acquisition, mask: bv32)
  {
    |c.values| % 301 == 0 &&
    FramesUpTo(a, mask, SamplesPerBit(a.sampleRate), c.values, c.timestamps, |c.values| / 301)
  }

  /** One frame in front of a framed stream keeps it framed. */
  lemma PrependFrame(a: Acquisition, mask: bv32, spbp: int, block: seq<bv32>, stamps: seq<int>,
                     vs: seq<bv32>, ts: seq<int>, frames: int)
    requires FrameBlock(a, mask, spbp, block, stamps)
    requires FramesUpTo(a, mask, spbp, vs, ts, frames)
    ensures FramesUpTo(a, mask, spbp, block + vs, stamps + ts, frames + 1)
  {
    forall f | 0 <= f < frames + 1
      ensures FrameBlock(a, mask, spbp, Chunk(block + vs, f), Chunk(stamps + ts, f))
    {
      if f == 0 {
        assert Chunk(block + vs, f) == block;
        assert Chunk(stamps + ts, f) == stamps;
      } else {
        assert Chunk(block + vs, f) == Chunk(vs, f - 1);
        assert Chunk(stamps + ts, f) == Chunk(ts, f - 1);
      }
    }
  }

  /** n samples of one level. */
  function Copies(n: nat, v: bv32): seq<bv32>
  {
    seq(n, _ => v)
  }

  /** The start times of n consecutive bits from time t on. */
  function BitStamps(n: nat, t: int, spbp: int): seq<int>
  {
    seq(n, bit => Stamp(t, spbp, bit))
  }

  /** What a stretch of the resampler produces: samples, their start times and the index it stops at. */
  datatype Samples = Samples(values: seq<bv32>, stamps: seq<int>, next: int)

  /** nBits for the edge before idx: Math.round of the gap in bit periods, capped at what the frame still lacks. */
  function RunLength(a: Acquisition, idx: int, bitCounter: int): (n: nat)
    requires WellFormed(a) && a.sampleRate >= MinSampleRate
    requires 0 < idx < |a.values| && bitCounter <= BitsPerFrame
    ensures n <= BitsPerFrame - bitCounter
  {
    var rounded := Round(Interval(a, idx), SamplesPerBit(a.sampleRate));
    if rounded < BitsPerFrame - bitCounter then rounded else BitsPerFrame - bitCounter
  }

  /**
   * The inner while loop (lines 352-370) from idx on with bitCounter samples
   * taken: each edge idx - 1 whose successor follows within a frame adds its
   * run of RunLength samples, in edge order, until the frame's 300 are in.
   */
  function BitRuns(a: Acquisition, mask: bv32, idx: int, bitCounter: int): (s: Samples)
    requires WellFormed(a) && a.sampleRate >= MinSampleRate
    requires 1 <= idx <= |a.values| && 0 <= bitCounter <= BitsPerFrame
    ensures idx <= s.next <= |a.values| && (|s.values| > 0 ==> idx < s.next)
    ensures |s.stamps| == |s.values| && bitCounter + |s.values| <= BitsPerFrame
    decreases |a.values| - idx
  {
    if idx < |a.values| && bitCounter < BitsPerFrame && Interval(a, idx) <= SamplesPerFrame(a.sampleRate) then
      var n := RunLength(a, idx, bitCounter);
      var rest := BitRuns(a, mask, idx + 1, bitCounter + n);
      Samples(Copies(n, Level(a.values[idx - 1], mask)) + rest.values,
              BitStamps(n, a.timestamps[idx - 1], SamplesPerBit(a.sampleRate)) + rest.stamps, rest.next)
    else
      Samples([], [], idx)
  }

  /** One step of the inner loop: edge idx - 1's run, then the runs from idx + 1 on. */
  lemma BitRunsStep(a: Acquisition, mask: bv32, idx: int, bitCounter: int)
    requires WellFormed(a) && a.sampleRate >= MinSampleRate
    requires 1 <= idx < |a.values| && 0 <= bitCounter < BitsPerFrame
    requires Interval(a, idx) <= SamplesPerFrame(a.sampleRate)
    ensures var n := RunLength(a, idx, bitCounter);
      var rest := BitRuns(a, mask, idx + 1, bitCounter + n);
      BitRuns(a, mask, idx, bitCounter).values == Copies(n, Level(a.values[idx - 1], mask)) + rest.values &&
      BitRuns(a, mask, idx, bitCounter).stamps == BitStamps(n, a.timestamps[idx - 1], SamplesPerBit(a.sampleRate)) + rest.stamps &&
      BitRuns(a, mask, idx, bitCounter).next == rest.next
  {
  }

  /**
   * The if after the inner loop (lines 371-383): when the runs left the
   * frame short, edge next - 1, the last one read, fills it up to 300
   * samples and idx moves on by one.
   */
  function Padded(a: Acquisition, mask: bv32, runs: Samples): (s: Samples)
    requires WellFormed(a) && a.sampleRate >= MinSampleRate
    requires 1 <= runs.next <= |a.values| && |runs.stamps| == |runs.values| <= BitsPerFrame
    ensures |s.values| == BitsPerFrame && |s.stamps| == BitsPerFrame
    ensures s.values[..|runs.values|] == runs.values && s.stamps[..|runs.values|] == runs.stamps
    ensures (|runs.values| < BitsPerFrame ==> s.next == runs.next + 1) && (|runs.values| == BitsPerFrame ==> s.next == runs.next)
  {
    if |runs.values| < BitsPerFrame then
      var n := BitsPerFrame - |runs.values|;
      Samples(runs.values + Copies(n, Level(a.values[runs.next - 1], mask)),
              runs.stamps + BitStamps(n, a.timestamps[runs.next - 1], SamplesPerBit(a.sampleRate)), runs.next + 1)
    else runs
  }

  /** The end marker (lines 384-387): value 1 one bit period after the last sample, and the final idx--. */
  function Marked(s: Samples, spbp: int): Samples
    requires |s.stamps| > 0
  {
    Samples(s.values + [1], s.stamps + [s.stamps[|s.stamps| - 1] + spbp], s.next - 1)
  }

  /** One frame from its first bit transition `first` on (lines 346-387): the runs, the padding and the end marker. */
  function ResampledBlock(a: Acquisition, mask: bv32, first: int): (s: Samples)
    requires WellFormed(a) && a.sampleRate >= MinSampleRate
    requires 1 <= first < |a.values|
    ensures first <= s.next <= |a.values|
    ensures |s.values| == 301 && |s.stamps| == 301
  {
    Marked(Padded(a, mask, BitRuns(a, mask, first, 0)), SamplesPerBit(a.sampleRate))
  }

  /** The outer while loop (lines 342-393) from idx on: one block after every gap longer than a frame. */
  function Frames(a: Acquisition, mask: bv32, idx: int): (s: Samples)
    requires WellFormed(a) && a.sampleRate >= MinSampleRate && 1 <= idx
    ensures |s.stamps| == |s.values|
    decreases |a.values| - idx
  {
    if idx >= |a.values| then Samples([], [], idx)
    else if FrameGapAt(a, idx) then
      if idx + 1 >= |a.values| then Samples([], [], idx + 1)
      else
        var block := ResampledBlock(a, mask, idx + 1);
        var rest := Frames(a, mask, block.next);
        Samples(block.values + rest.values, block.stamps + rest.stamps, rest.next)
    else Frames(a, mask, idx + 1)
  }

  /** The outer loop at a frame gap: the block after it, then the loop from the block's end on. */
  lemma FramesAtGap(a: Acquisition, mask: bv32, idx: int)
    requires WellFormed(a) && a.sampleRate >= MinSampleRate
    requires 1 <= idx && idx + 1 < |a.values| && FrameGapAt(a, idx)
    ensures var block := ResampledBlock(a, mask, idx + 1);
      Frames(a, mask, idx).values == block.values + Frames(a, mask, block.next).values &&
      Frames(a, mask, idx).stamps == block.stamps + Frames(a, mask, block.next).stamps
  {
  }

  /** The outer loop past an edge that does not follow a frame gap, and at the end of the input. */
  lemma FramesElsewhere(a: Acquisition, mask: bv32, idx: int)
    requires WellFormed(a) && a.sampleRate >= MinSampleRate && 1 <= idx
    ensures idx < |a.values| && !FrameGapAt(a, idx) ==> Frames(a, mask, idx) == Frames(a, mask, idx + 1)
    ensures idx + 1 >= |a.values| ==> Frames(a, mask, idx).values == [] && Frames(a, mask, idx).stamps == []
  {
  }

  /** Where the first while loop (lines 338-341) stops: the first edge at least a frame after its predecessor. */
  function FirstStart(a: Acquisition, idx: int): (k: int)
    requires WellFormed(a) && 1 <= idx
    ensures idx <= k && (idx <= |a.values| ==> k <= |a.values|)
    decreases |a.values| - idx
  {
    if idx < |a.values| && Interval(a, idx) < SamplesPerFrame(a.sampleRate) then FirstStart(a, idx + 1) else idx
  }

  /** The samples and timestamps createBitSampledSBUSFrames collects. */
  function Resampled(a: Acquisition, dataIdx: int): Samples
    requires WellFormed(a) && a.sampleRate >= MinSampleRate
  {
    Frames(a, DataMask(dataIdx), FirstStart(a, 1))
  }

  /** The first loop passes only edges that do not follow a frame gap. */
  lemma {:induction false} FirstStartQuiet(a: Acquisition, idx: int)
    requires WellFormed(a) && 1 <= idx
    ensures forall i | idx <= i < FirstStart(a, idx) && i < |a.timestamps| :: !FrameGapAt(a, i)
    decreases |a.values| - idx
  {
    if idx < |a.values| && Interval(a, idx) < SamplesPerFrame(a.sampleRate) {
      FirstStartQuiet(a, idx + 1);
    }
  }

  /** The outer loop from idx on writes nothing exactly when no later edge but the last follows a frame gap. */
  lemma {:induction false} FramesEmptyIff(a: Acquisition, mask: bv32, idx: int)
    requires WellFormed(a) && a.sampleRate >= MinSampleRate && 1 <= idx
    ensures Frames(a, mask, idx).values == [] <==> forall i | idx <= i < |a.values| - 1 :: !FrameGapAt(a, i)
    decreases |a.values| - idx
  {
    if idx < |a.values| && !FrameGapAt(a, idx) {
      FramesEmptyIff(a, mask, idx + 1);
    }
  }

  /** The resampler finds no frame exactly when no edge but the last follows an idle gap longer than a frame. */
  lemma ResampledEmptyIff(a: Acquisition, dataIdx: int)
    requires WellFormed(a) && a.sampleRate >= MinSampleRate
    ensures Resampled(a, dataIdx).values == [] <==> forall i | 0 < i < |a.values| - 1 :: !FrameGapAt(a, i)
  {
    FirstStartQuiet(a, 1);
    FramesEmptyIff(a, DataMask(dataIdx), FirstStart(a, 1));
  }

  /** A run of edge i is drawn from the input. */
  lemma RunSampled(a: Acquisition, mask: bv32, spbp: int, i: int, n: nat)
    requires 0 <= i < |a.values| && i < |a.timestamps| && n <= BitsPerFrame
    ensures AllSampled(a, mask, spbp, Copies(n, Level(a.values[i], mask)), BitStamps(n, a.timestamps[i], spbp))
  {
    forall k | 0 <= k < n
      ensures SampledFrom(a, mask, spbp, Copies(n, Level(a.values[i], mask))[k], BitStamps(n, a.timestamps[i], spbp)[k])
    {
      assert Copies(n, Level(a.values[i], mask))[k] == Level(a.values[i], mask);
      assert BitStamps(n, a.timestamps[i], spbp)[k] == Stamp(a.timestamps[i], spbp, k);
    }
  }

  lemma AllSampledConcat(a: Acquisition, mask: bv32, spbp: int, vs: seq<bv32>, ts: seq<int>, vs': seq<bv32>, ts': seq<int>)
    requires AllSampled(a, mask, spbp, vs, ts) && AllSampled(a, mask, spbp, vs', ts')
    ensures AllSampled(a, mask, spbp, vs + vs', ts + ts')
  {
    forall k | 0 <= k < |vs + vs'|
      ensures SampledFrom(a, mask, spbp, (vs + vs')[k], (ts + ts')[k])
    {
      if k >= |vs| {
        assert (vs + vs')[k] == vs'[k - |vs|] && (ts + ts')[k] == ts'[k - |vs|];
      }
    }
  }

  /** The inner loop's runs are drawn from the input. */
  lemma {:induction false} BitRunsSampled(a: Acquisition, mask: bv32, idx: int, bitCounter: int)
    requires WellFormed(a) && a.sampleRate >= MinSampleRate
    requires 1 <= idx <= |a.values| && 0 <= bitCounter <= BitsPerFrame
    ensures AllSampled(a, mask, SamplesPerBit(a.sampleRate), BitRuns(a, mask, idx, bitCounter).values,
                       BitRuns(a, mask, idx, bitCounter).stamps)
    decreases |a.values| - idx
  {
    if idx < |a.values| && bitCounter < BitsPerFrame && Interval(a, idx) <= SamplesPerFrame(a.sampleRate) {
      var n := RunLength(a, idx, bitCounter);
      var rest := BitRuns(a, mask, idx + 1, bitCounter + n);
      BitRunsStep(a, mask, idx, bitCounter);
      BitRunsSampled(a, mask, idx + 1, bitCounter + n);
      RunSampled(a, mask, SamplesPerBit(a.sampleRate), idx - 1, n);
      AllSampledConcat(a, mask, SamplesPerBit(a.sampleRate),
                       Copies(n, Level(a.values[idx - 1], mask)), BitStamps(n, a.timestamps[idx - 1], SamplesPerBit(a.sampleRate)),
                       rest.values, rest.stamps);
    }
  }

  /** The padded runs of a block are drawn from the input. */
  lemma PaddedSampled(a: Acquisition, mask: bv32, first: int)
    requires WellFormed(a) && a.sampleRate >= MinSampleRate
    requires 1 <= first < |a.values|
    ensures var padded := Padded(a, mask, BitRuns(a, mask, first, 0));
      AllSampled(a, mask, SamplesPerBit(a.sampleRate), padded.values, padded.stamps)
  {
    var spbp := SamplesPerBit(a.sampleRate);
    var runs := BitRuns(a, mask, first, 0);
    BitRunsSampled(a, mask, first, 0);
    if |runs.values| < BitsPerFrame {
      var n := BitsPerFrame - |runs.values|;
      RunSampled(a, mask, spbp, runs.next - 1, n);
      AllSampledConcat(a, mask, spbp, runs.values, runs.stamps,
                       Copies(n, Level(a.values[runs.next - 1], mask)), BitStamps(n, a.timestamps[runs.next - 1], spbp));
    }
  }

  /** 300 drawn samples with the end marker after them form a frame. */
  lemma MarkedIsFrame(a: Acquisition, mask: bv32, spbp: int, padded: Samples)
    requires |padded.values| == BitsPerFrame && AllSampled(a, mask, spbp, padded.values, padded.stamps)
    ensures FrameBlock(a, mask, spbp, Marked(padded, spbp).values, Marked(padded, spbp).stamps)
  {
    var s := Marked(padded, spbp);
    assert s.values[..300] == padded.values && s.stamps[..300] == padded.stamps;
  }

  /** Every resampled block is a frame: 300 samples drawn from the input, then the end marker. */
  lemma ResampledBlockIsFrame(a: Acquisition, mask: bv32, first: int)
    requires WellFormed(a) && a.sampleRate >= MinSampleRate
    requires 1 <= first < |a.values|
    ensures FrameBlock(a, mask, SamplesPerBit(a.sampleRate), ResampledBlock(a, mask, first).values,
                       ResampledBlock(a, mask, first).stamps)
  {
    PaddedSampled(a, mask, first);
    MarkedIsFrame(a, mask, SamplesPerBit(a.sampleRate), Padded(a, mask, BitRuns(a, mask, first, 0)));
  }

  /** The outer loop's output is framed: one FrameBlock after another. */
  lemma {:induction false} FramesFramed(a: Acquisition, mask: bv32, idx: int)
    requires WellFormed(a) && a.sampleRate >= MinSampleRate && 1 <= idx
    ensures var s := Frames(a, mask, idx);
      |s.values| % 301 == 0 && FramesUpTo(a, mask, SamplesPerBit(a.sampleRate), s.values, s.stamps, |s.values| / 301)
    decreases |a.values| - idx
  {
    FramesElsewhere(a, mask, idx);
    if idx + 1 < |a.values| {
      if FrameGapAt(a, idx) {
        var block := ResampledBlock(a, mask, idx + 1);
        var rest := Frames(a, mask, block.next);
        FramesAtGap(a, mask, idx);
        ResampledBlockIsFrame(a, mask, idx + 1);
        FramesFramed(a, mask, block.next);
        PrependFrame(a, mask, SamplesPerBit(a.sampleRate), block.values, block.stamps,
                     rest.values, rest.stamps, |rest.values| / 301);
        assert |block.values + rest.values| / 301 == |rest.values| / 301 + 1;
      } else {
        FramesFramed(a, mask, idx + 1);
      }
    }
  }

  lemma Associative<T>(x: seq<T>, y: seq<T>, z: seq<T>)
    ensures x + (y + z) == (x + y) + z
  {
  }

  /** The inner for loops: n samples of one value, one bit period apart from base on. */
  method AppendRun(vs: seq<bv32>, ts: seq<int>, value: bv32, base: int, spbp: int, n: nat)
    returns (vs': seq<bv32>, ts': seq<int>)
    ensures vs' == vs + Copies(n, value)
    ensures ts' == ts + BitStamps(n, base, spbp)
  {
    vs', ts' := vs, ts;
    for bit := 0 to n
      invariant vs' == vs + seq(bit, _ => value)
      invariant ts' == ts + seq(bit, b => Stamp(base, spbp, b))
    {
      vs' := vs' + [value];
      ts' := ts' + [Stamp(base, spbp, bit)];
    }
  }

  /** block and stamps are what the inner loop collected from first on before reaching idx with bitCounter samples. */
  ghost predicate RunsSoFar(a: Acquisition, mask: bv32, first: int, idx: int, bitCounter: int, block: seq<bv32>, stamps: seq<int>)
    requires WellFormed(a) && a.sampleRate >= MinSampleRate
    requires 1 <= first <= idx <= |a.values| && 0 <= bitCounter <= BitsPerFrame
  {
    var runs := BitRuns(a, mask, first, 0);
    var rest := BitRuns(a, mask, idx, bitCounter);
    runs.values == block + rest.values && runs.stamps == stamps + rest.stamps && runs.next == rest.next
  }

  /** One pass of the inner loop keeps RunsSoFar. */
  lemma RunsSoFarStep(a: Acquisition, mask: bv32, first: int, idx: int, bitCounter: int, block: seq<bv32>, stamps: seq<int>)
    requires WellFormed(a) && a.sampleRate >= MinSampleRate
    requires 1 <= first <= idx < |a.values| && 0 <= bitCounter < BitsPerFrame
    requires Interval(a, idx) <= SamplesPerFrame(a.sampleRate)
    requires RunsSoFar(a, mask, first, idx, bitCounter, block, stamps)
    ensures var n := RunLength(a, idx, bitCounter);
      RunsSoFar(a, mask, first, idx + 1, bitCounter + n,
                block + Copies(n, Level(a.values[idx - 1], mask)),
                stamps + BitStamps(n, a.timestamps[idx - 1], SamplesPerBit(a.sampleRate)))
  {
    var n := RunLength(a, idx, bitCounter);
    var rest := BitRuns(a, mask, idx + 1, bitCounter + n);
    BitRunsStep(a, mask, idx, bitCounter);
    Associative(block, Copies(n, Level(a.values[idx - 1], mask)), rest.values);
    Associative(stamps, BitStamps(n, a.timestamps[idx - 1], SamplesPerBit(a.sampleRate)), rest.stamps);
  }

  /** The inner while loop (lines 352-370): the runs BitRuns describes, and where idx stops. */
  method CollectRuns(a: Acquisition, mask: bv32, first: int) returns (idx: int, block: seq<bv32>, stamps: seq<int>)
    requires WellFormed(a) && a.sampleRate >= MinSampleRate
    requires 1 <= first < |a.values|
    ensures Samples(block, stamps, idx) == BitRuns(a, mask, first, 0)
  {
    var spbp := SamplesPerBit(a.sampleRate);
    var spf := SamplesPerFrame(a.sampleRate);
    var n := |a.values|;
    idx := first;
    var bitCounter := 0;
    block, stamps := [], [];
    while idx < n && bitCounter < BitsPerFrame && Interval(a, idx) <= spf
      invariant first <= idx <= n && 0 <= bitCounter <= BitsPerFrame && |block| == bitCounter
      invariant RunsSoFar(a, mask, first, idx, bitCounter, block, stamps)
      decreases n - idx
    {
      var nBits := RunLength(a, idx, bitCounter);
      var dataValue := Level(a.values[idx - 1], mask);
      RunsSoFarStep(a, mask, first, idx, bitCounter, block, stamps);
      bitCounter := bitCounter + nBits;
      block, stamps := AppendRun(block, stamps, dataValue, a.timestamps[idx - 1], spbp, nBits);
      idx := idx + 1;
    }
  }

  /**
   * One frame of createBitSampledSBUSFrames (lines 346-387), from the first
   * bit transition `first` on: the block ResampledBlock describes.
   */
  method ResampleFrame(a: Acquisition, mask: bv32, first: int) returns (next: int, block: seq<bv32>, stamps: seq<int>)
    requires WellFormed(a) && a.sampleRate >= MinSampleRate
    requires 1 <= first < |a.values|
    ensures Samples(block, stamps, next) == ResampledBlock(a, mask, first)
  {
    var spbp := SamplesPerBit(a.sampleRate);
    var idx;
    idx, block, stamps := CollectRuns(a, mask, first);
    var bitCounter := |block|;
    if bitCounter < BitsPerFrame {
      var nBits := BitsPerFrame - bitCounter;
      var dataValue := Level(a.values[idx - 1], mask);
      bitCounter := bitCounter + nBits;
      block, stamps := AppendRun(block, stamps, dataValue, a.timestamps[idx - 1], spbp, nBits);
      idx := idx + 1;
    }
    ghost var padded := Padded(a, mask, BitRuns(a, mask, first, 0));
    assert Samples(block, stamps, idx) == padded;
    block := block + [1];
    stamps := stamps + [stamps[|stamps| - 1] + spbp];
    idx := idx - 1;
    next := idx;
  }

  /** The outer while loop (lines 342-393) from idx on: the frames Frames describes. */
  method CollectFrames(a: Acquisition, mask: bv32, start: int) returns (values: seq<bv32>, stamps: seq<int>)
    requires WellFormed(a) && a.sampleRate >= MinSampleRate && 1 <= start
    ensures values == Frames(a, mask, start).values && stamps == Frames(a, mask, start).stamps
  {
    var spf := SamplesPerFrame(a.sampleRate);
    var n := |a.values|;
    var idx := start;
    values, stamps := [], [];
    ghost var all := Frames(a, mask, idx);
    while idx < n
      invariant 1 <= idx
      invariant all.values == values + Frames(a, mask, idx).values
      invariant all.stamps == stamps + Frames(a, mask, idx).stamps
      decreases n - idx
    {
      FramesElsewhere(a, mask, idx);
      if Interval(a, idx) > spf {
        idx := idx + 1;   // advance to the first bit transition of the frame
        if idx >= n {
          break;
        }
        var next, block, blockStamps := ResampleFrame(a, mask, idx);
        FramesAtGap(a, mask, idx - 1);
        ghost var rest := Frames(a, mask, next);
        Associative(values, block, rest.values);
        Associative(stamps, blockStamps, rest.stamps);
        values := values + block;
        stamps := stamps + blockStamps;
        idx := next;
      } else {
        idx := idx + 1;
      }
    }
    FramesElsewhere(a, mask, idx);
  }

  /**
   * createBitSampledSBUSFrames: resample every frame that follows an idle
   * gap longer than a frame. When there is none, the final get(size() - 1)
   * on the empty timestamp list throws.
   */
  method CreateBitSampledFrames(a: Acquisition, dataIdx: int) returns (r: Result<Captured>)
    requires WellFormed(a) && a.sampleRate >= MinSampleRate
    ensures r.Err? <==> Resampled(a, dataIdx).values == []
    ensures r.Err? ==> r.error == IndexOutOfBounds
    ensures r.Ok? ==> r.value.values == Resampled(a, dataIdx).values && r.value.timestamps == Resampled(a, dataIdx).stamps
    ensures r.Ok? ==> r.value.absoluteLength == r.value.timestamps[|r.value.timestamps| - 1]
    ensures r.Ok? ==> r.value.triggerPosition == 0 && r.value.sampleRate == a.sampleRate
    ensures r.Ok? ==> r.value.channels == 255 && r.value.enabledChannels == 3
  {
    var spf := SamplesPerFrame(a.sampleRate);
    var n := |a.values|;
    var idx := 1;
    // find the first start of frame
    while idx < n && Interval(a, idx) < spf
      invariant 1 <= idx && (n > 0 ==> idx <= n)
      invariant FirstStart(a, idx) == FirstStart(a, 1)
    {
      idx := idx + 1;
    }
    var values, stamps := CollectFrames(a, DataMask(dataIdx), idx);
    if |stamps| == 0 {
      return Err(IndexOutOfBounds);
    }
    r := Ok(Captured(values, stamps, 0, a.sampleRate, 255, 3, stamps[|stamps| - 1]));
  }

  /** The resampler fails exactly when no frame gap exists, and otherwise returns a framed stream. */
  lemma CreateBitSampledFramesShape(a: Acquisition, dataIdx: int)
    requires WellFormed(a) && a.sampleRate >= MinSampleRate
    ensures Resampled(a, dataIdx).values == [] <==> forall i | 0 < i < |a.values| - 1 :: !FrameGapAt(a, i)
    ensures var s := Resampled(a, dataIdx);
      Framed(Captured(s.values, s.stamps, 0, a.sampleRate, 255, 3, 0), a, DataMask(dataIdx))
  {
    ResampledEmptyIff(a, dataIdx);
    FramesFramed(a, DataMask(dataIdx), FirstStart(a, 1));
  }

  // ---------------------------------------------------------------------
  // The framer's 12-sample window (clockDataOnEdge, lines 250-260)
  // ---------------------------------------------------------------------

  /**
   * How a sample is tested: the framer's (values[idx] & dataMask) == 1, and
   * the evidently intended (values[idx] & dataMask) != 0.
   */
  datatype SampleTest = EqualsOne | NonZero

  predicate High(t: SampleTest, v: bv32, mask: bv32)
  {
    match t
    case EqualsOne => v & mask == 1
    case NonZero => v & mask != 0
  }

  /** The bit that sample j of a window sets: 11 - j, as the loop counts p down from 11. */
  function Position(j: nat): (p: bv32)
    requires j < 12
  {
    if j == 0 then 11 else Position(j - 1) - 1
  }

  lemma PositionBelow12(j: nat)
    requires j < 12
    ensures Position(j) < 12
  {
    match j
    case 0 => case 1 => assert Position(1) == 10; case 2 => assert Position(2) == 9;
    case 3 => case 4 => case 5 => case 6 => case 7 => case 8 => case 9 => case 10 => case _ =>
  }

  /** Samples 1 .. 8 of a window, the data bits, sit in bits 10 .. 3. */
  lemma PositionInByte(j: nat)
    requires 1 <= j <= 8
    ensures 3 <= Position(j) <= 10
  {
    match j
    case 1 => assert Position(1) == 10; case 2 => assert Position(2) == 9;
    case 3 => case 4 => case 5 => case 6 => case 7 => case _ =>
  }

  lemma {:induction false} PositionInjective(i: nat, j: nat)
    requires i < 12 && j < 12
    ensures Position(i) == Position(j) ==> i == j
  {
    if i > 0 && j > 0 {
      PositionInjective(i - 1, j - 1);
    } else if i > 0 {
      PositionBelow12(i - 1);
    } else if j > 0 {
      PositionBelow12(j - 1);
    }
  }

  /** The loop's shift distance p is the position of sample 11 - p. */
  lemma PositionIsShift(p: int)
    requires 0 <= p < 12
    ensures Position(11 - p) == p as bv32
  {
    match p
    case 0 => case 1 => assert Position(10) == 1; case 2 => assert Position(9) == 2;
    case 3 => case 4 => case 5 => case 6 => case 7 => case 8 => case 9 => case 10 => case _ =>
  }

  /** 1 << p. */
  function BitAt(p: bv32): bv32
    requires p < 32
  {
    (1 as bv32) << p
  }

  lemma BitAtNonzero(p: bv32)
    requires p < 12
    ensures BitAt(p) != 0
  {
  }

  /** Or-ing in bit a changes bit b only when a is b. */
  lemma OrBitAt(d: bv32, a: bv32, b: bv32)
    requires a < 12 && b < 12
    ensures (d | BitAt(a)) & BitAt(b) == if a == b then BitAt(b) else d & BitAt(b)
  {
  }

  lemma OrBitAtBelow(d: bv32, a: bv32)
    requires d < 0x1000 && a < 12
    ensures d | BitAt(a) < 0x1000
  {
  }

  /** Bit 11 - j of d: sample j of the window it was read from. */
  predicate SampleBit(d: bv32, j: nat)
    requires j < 12
  {
    PositionBelow12(j);
    d & BitAt(Position(j)) != 0
  }

  /** d with the bit of sample j set. */
  function WithSample(d: bv32, j: nat): bv32
    requires j < 12
  {
    PositionBelow12(j);
    d | BitAt(Position(j))
  }

  lemma WithSampleSame(d: bv32, j: nat)
    requires j < 12
    ensures SampleBit(WithSample(d, j), j)
  {
    PositionBelow12(j);
    OrBitAt(d, Position(j), Position(j));
    BitAtNonzero(Position(j));
  }

  lemma WithSampleOther(d: bv32, i: nat, j: nat)
    requires i < 12 && j < 12 && i != j
    ensures SampleBit(WithSample(d, i), j) == SampleBit(d, j)
  {
    PositionBelow12(i);
    PositionBelow12(j);
    PositionInjective(i, j);
    OrBitAt(d, Position(i), Position(j));
  }

  /** The loop's datavalue |= 1 << p sets the bit of sample 11 - p. */
  lemma ShiftIsWithSample(d: bv32, p: int)
    requires 0 <= p < 12
    ensures d | ((1 as bv32) << (p as bv32)) == WithSample(d, 11 - p)
  {
    PositionIsShift(p);
    PositionBelow12(11 - p);
  }

  /** n samples from start on lie inside vs and inside one window. */
  predicate WindowFits(vs: seq<bv32>, start: int, n: int)
  {
    0 <= start && 0 <= n <= 12 && start + n <= |vs|
  }

  /**
   * d is what the first n samples of the window at start read as: sample j
   * sets bit 11 - j exactly when it tests high, and nothing else is set.
   */
  ghost predicate ReadsAs(d: bv32, t: SampleTest, vs: seq<bv32>, mask: bv32, start: int, n: int)
    requires WindowFits(vs, start, n)
  {
    d < 0x1000 &&
    forall j | 0 <= j < 12 :: SampleBit(d, j) == (j < n && High(t, vs[start + j], mask))
  }

  /** Reading one more sample sets its bit when it tests high. */
  lemma ReadsAsStep(d: bv32, t: SampleTest, vs: seq<bv32>, mask: bv32, start: int, n: int)
    requires WindowFits(vs, start, n) && n < 12 && start + n < |vs|
    requires ReadsAs(d, t, vs, mask, start, n)
    ensures ReadsAs(if High(t, vs[start + n], mask) then WithSample(d, n) else d, t, vs, mask, start, n + 1)
  {
    PositionBelow12(n);
    if High(t, vs[start + n], mask) {
      OrBitAtBelow(d, Position(n));
      forall j | 0 <= j < 12
        ensures SampleBit(WithSample(d, n), j) == (j < n + 1 && High(t, vs[start + j], mask))
      {
        if j == n {
          WithSampleSame(d, j);
        } else {
          WithSampleOther(d, n, j);
        }
      }
    }
  }

  /** datavalue after the first n samples of the window at start. */
  function WindowBits(t: SampleTest, vs: seq<bv32>, mask: bv32, start: int, n: int): (d: bv32)
    requires WindowFits(vs, start, n)
    ensures ReadsAs(d, t, vs, mask, start, n)
  {
    if n == 0 then 0
    else
      var d := WindowBits(t, vs, mask, start, n - 1);
      ReadsAsStep(d, t, vs, mask, start, n - 1);
      if High(t, vs[start + n - 1], mask) then WithSample(d, n - 1) else d
  }

  /** The end of the window that starts at `start`: 12 samples on, or the last sample. */
  function WindowEnd(n: int, start: int): (e: int)
    requires start < n - 1
    ensures start < e <= n - 1 && e - start <= 12
  {
    if start + 12 <= n - 1 then start + 12 else n - 1
  }

  /**
   * The inner for loop of clockDataOnEdge (lines 250-259): up to 12
   * samples from start on, never reaching the last sample.
   */
  method ReadWindow(t: SampleTest, vs: seq<bv32>, mask: bv32, start: int) returns (datavalue: bv32, next: int)
    requires 0 <= start < |vs| - 1
    ensures next == WindowEnd(|vs|, start)
    ensures datavalue == WindowBits(t, vs, mask, start, next - start)
  {
    datavalue := 0;
    next := start;
    var p := 11;
    while p >= 0 && next < |vs| - 1
      invariant -1 <= p <= 11 && next == start + (11 - p) && next <= |vs| - 1
      invariant datavalue == WindowBits(t, vs, mask, start, next - start)
    {
      if High(t, vs[next], mask) {
        ShiftIsWithSample(datavalue, p);
        datavalue := datavalue | ((1 as bv32) << (p as bv32));
      }
      next := next + 1;
      p := p - 1;
    }
  }

  /** The byte the framer keeps of a window: (datavalue >> 3) & 0xFF. */
  function WindowByte(d: bv32): (b: bv32)
    ensures b <= 0xFF
  {
    (d >> 3) & 0xFF
  }

  lemma ByteBitAt(d: bv32, a: bv32)
    requires 3 <= a <= 10
    ensures WindowByte(d) & BitAt(a - 3) != 0 <==> d & BitAt(a) != 0
  {
  }

  /** The bit of the kept byte that data sample j (1 .. 8) lands in: 1 << (8 - j). */
  function KeptByteMask(j: nat): bv32
    requires 1 <= j <= 8
  {
    PositionInByte(j);
    BitAt(Position(j) - 3)
  }

  /** The kept byte's bit 8 - j is sample j of the window, for the data samples 1 .. 8. */
  lemma WindowByteBits(d: bv32, j: nat)
    requires 1 <= j <= 8
    ensures WindowByte(d) & KeptByteMask(j) != 0 <==> SampleBit(d, j)
  {
    PositionInByte(j);
    ByteBitAt(d, Position(j));
  }

  /** The == 1 test never holds on a channel whose mask lacks bit 0: every window reads 0. */
  lemma {:induction false} WindowBitsOtherChannels(vs: seq<bv32>, mask: bv32, start: int, n: int)
    requires WindowFits(vs, start, n) && mask & 1 == 0
    ensures WindowBits(EqualsOne, vs, mask, start, n) == 0
  {
    if n > 0 {
      WindowBitsOtherChannels(vs, mask, start, n - 1);
      assert !High(EqualsOne, vs[start + n - 1], mask);
    }
  }

  lemma ShiftLowBit(k: bv32)
    requires k < 32
    ensures ((1 as bv32) << k) & 1 == 0 <==> k != 0
  {
  }

  /** The data mask has bit 0 set only for data channels 0, 32, 64, ... (Java shifts modulo 32). */
  lemma DataMaskLowBit(dataIdx: int)
    ensures DataMask(dataIdx) & 1 == 0 <==> dataIdx % 32 != 0
  {
    var k := dataIdx % 32;
    ShiftLowBit(k as bv32);
    assert (1 as bv32) << k == (1 as bv32) << (k as bv32);
  }

  /** On any data channel but 0 (modulo 32), every window the framer reads is 0, and so is its byte. */
  lemma OtherChannelsReadZero(vs: seq<bv32>, dataIdx: int, start: int, n: int)
    requires WindowFits(vs, start, n) && dataIdx % 32 != 0
    ensures WindowBits(EqualsOne, vs, DataMask(dataIdx), start, n) == 0
    ensures WindowByte(WindowBits(EqualsOne, vs, DataMask(dataIdx), start, n)) == 0
  {
    DataMaskLowBit(dataIdx);
    WindowBitsOtherChannels(vs, DataMask(dataIdx), start, n);
  }

  /** On data channel 0 (mask 1) the two tests read every window alike. */
  lemma {:induction false} ChannelZeroAgrees(vs: seq<bv32>, start: int, n: int)
    requires WindowFits(vs, start, n)
    ensures WindowBits(EqualsOne, vs, 1, start, n) == WindowBits(NonZero, vs, 1, start, n)
  {
    if n > 0 {
      ChannelZeroAgrees(vs, start, n - 1);
      assert High(EqualsOne, vs[start + n - 1], 1) == High(NonZero, vs[start + n - 1], 1);
    }
  }

  /** With the != 0 test, bit 11-j of a window is set exactly when sample j is high on the data channel. */
  lemma CorrectedWindowReadsLevels(vs: seq<bv32>, mask: bv32, start: int, n: int, j: nat)
    requires WindowFits(vs, start, n) && j < n
    ensures SampleBit(WindowBits(NonZero, vs, mask, start, n), j) <==> vs[start + j] & mask != 0
  {
  }

  /** A value below 0x1000 with all twelve sample bits set is 0xFFF. */
  lemma AllSamplesSet(d: bv32)
    requires d < 0x1000 && forall j | 0 <= j < 12 :: SampleBit(d, j)
    ensures d == 0xFFF
  {
    assert SampleBit(d, 0) && SampleBit(d, 1) && SampleBit(d, 2) && SampleBit(d, 3);
    assert SampleBit(d, 4) && SampleBit(d, 5) && SampleBit(d, 6) && SampleBit(d, 7);
    assert SampleBit(d, 8) && SampleBit(d, 9) && SampleBit(d, 10) && SampleBit(d, 11);
    assert Position(1) == 10 && Position(2) == 9 && Position(3) == 8 && Position(4) == 7;
    assert Position(5) == 6 && Position(6) == 5 && Position(7) == 4 && Position(8) == 3;
    assert Position(9) == 2 && Position(10) == 1 && Position(11) == 0;
  }

  /** Data channel 1 (mask 2): twelve high samples read 0 with the == 1 test and 0xFFF with != 0. */
  lemma ChannelOneWindowMisread()
    ensures DataMask(1) == 2
    ensures WindowBits(EqualsOne, seq(12, _ => 2), 2, 0, 12) == 0
    ensures WindowBits(NonZero, seq(12, _ => 2), 2, 0, 12) == 0xFFF
  {
    var vs: seq<bv32> := seq(12, _ => 2);
    WindowBitsOtherChannels(vs, 2, 0, 12);
    AllSamplesSet(WindowBits(NonZero, vs, 2, 0, 12));
  }

  // ---------------------------------------------------------------------
  // The framer (clockDataOnEdge, lines 223-312)
  // ---------------------------------------------------------------------

  /** Sample idx starts or continues a byte when the next sample follows within one bit period. */
  predicate InSync(ts: seq<int>, idx: int, rate: int)
    requires 0 <= idx < |ts| - 1
  {
    (ts[idx + 1] - ts[idx]) * 100000 <= rate
  }

  /** What the framer reads and how it is set up. */
  datatype Setup = Setup(
    values: seq<bv32>,
    stamps: seq<int>,
    sampleRate: int,
    dataIdx: int,
    /** NumberUtils.convertBitOrder(value, 13, MSB_FIRST), which is not part of this model. */
    bitOrder: bv32 -> int,
    /** false as written; true for the framer that forgets a broken frame's bytes on a desync. */
    clearsOnDesync: bool)

  predicate SetupOk(s: Setup)
  {
    |s.values| == |s.stamps|
  }

  /** The framer's local state, with the decoder's state and the data set's records. */
  datatype FramerState = FramerState(
    bytes: seq<bv32>,         // SBUSbytes
    byteNdx: int,
    frameCount: int,
    lastLoss: int,            // lastFrameLossCount
    decoder: DecoderState,
    records: seq<Record>)

  function InitialFramer(): FramerState
  {
    FramerState([], 0, 1, 0, InitialState(), [])
  }

  /** reportData: one DATA record of the converted window, only for a data channel index >= 0. */
  function DataReport(dataIdx: int, bitOrder: bv32 -> int, records: seq<Record>,
                      start: int, end: int, d: bv32, frame: int): seq<Record>
  {
    if dataIdx >= 0 then records + [DataRecord(|records|, dataIdx, Some(SbusDataName), bitOrder(d), start, end, frame, -1)]
    else records
  }

  /** getFrameLoss() of a decoder that has seen at least one frame. */
  function FrameLoss(dec: DecoderState): (p: int)
    requires dec.goodFrames + dec.lostFrames + dec.decoderErrorFrames > 0
    ensures 0 <= p <= 100
  {
    FrameLossPercent(dec.goodFrames, dec.lostFrames, dec.decoderErrorFrames).value
  }

  /** The event of a decoded frame: FRAME DECODED when the frame loss did not change, else FRAME LOST. */
  function FrameEvent(dec: DecoderState, lastLoss: int, records: seq<Record>, idx: int): Record
    requires dec.goodFrames + dec.lostFrames + dec.decoderErrorFrames > 0
  {
    var name := if lastLoss == FrameLoss(dec) then FrameDecodedEvent else FrameLostEvent;
    EventRecord(|records|, 0, Some(name), idx, Some(Describe(dec)))
  }

  /**
   * One in-sync step of the framer (lines 250-280): keep the window's byte,
   * report the window, and at the 25th byte decode the collected list.
   */
  function TakeWindow(s: Setup, st: FramerState, start: int, end: int, d: bv32): (r: Result<FramerState>)
    ensures r.Err? <==> st.byteNdx == 24 && |st.bytes| != 24
    ensures r.Err? ==> r.error == InputMismatch
  {
    var records := DataReport(s.dataIdx, s.bitOrder, st.records, start, end, d, st.frameCount);
    var bytes := st.bytes + [WindowByte(d)];
    if st.byteNdx + 1 != BytesPerFrame then
      Ok(st.(bytes := bytes, byteNdx := st.byteNdx + 1, records := records))
    else if |bytes| != BytesPerFrame then
      Err(InputMismatch)
    else
      var dec := Decode(bytes, st.decoder.(channels := seq(18, _ => 0)));
      Ok(FramerState([], BytesPerFrame, st.frameCount + 1, FrameLoss(dec), dec,
                     records + [FrameEvent(dec, st.lastLoss, records, end)]))
  }

  /** The two ways an in-sync window succeeds: the byte is kept, or it completes a frame of 25. */
  lemma TakeWindowCases(s: Setup, st: FramerState, start: int, end: int, d: bv32)
    ensures var records := DataReport(s.dataIdx, s.bitOrder, st.records, start, end, d, st.frameCount);
      var bytes := st.bytes + [WindowByte(d)];
      (st.byteNdx + 1 != BytesPerFrame ==>
         TakeWindow(s, st, start, end, d) == Ok(st.(bytes := bytes, byteNdx := st.byteNdx + 1, records := records))) &&
      (st.byteNdx + 1 == BytesPerFrame && |bytes| == BytesPerFrame ==>
         var dec := Decode(bytes, st.decoder.(channels := seq(18, _ => 0)));
         TakeWindow(s, st, start, end, d) ==
         Ok(FramerState([], BytesPerFrame, st.frameCount + 1, FrameLoss(dec), dec,
                        records + [FrameEvent(dec, st.lastLoss, records, end)])))
  {
  }

  /** A sample that is not in sync (lines 282-286): step over it and restart the byte count. */
  function Desync(s: Setup, st: FramerState): (t: FramerState)
  {
    if s.clearsOnDesync then st.(bytes := [], byteNdx := 0) else st.(byteNdx := 0)
  }

  /** The framer from sample idx on, starting in state st. */
  function Run(s: Setup, st: FramerState, idx: int): Result<FramerState>
    requires SetupOk(s) && 0 <= idx
    decreases |s.values| - idx
  {
    if idx >= |s.values| - 1 then Ok(st)
    else if InSync(s.stamps, idx, s.sampleRate) then
      var e := WindowEnd(|s.values|, idx);
      var d := WindowBits(EqualsOne, s.values, DataMask(s.dataIdx), idx, e - idx);
      match TakeWindow(s, st, idx, e, d)
      case Err(f) => Err(f)
      case Ok(st') => Run(s, st', e)
    else
      Run(s, Desync(s, st), idx + 1)
  }

  /** An in-sync window moves Run to the window's end in the state TakeWindow gives. */
  lemma RunInSync(s: Setup, st: FramerState, idx: int, e: int, d: bv32, st': FramerState)
    requires SetupOk(s) && 0 <= idx < |s.values| - 1 && InSync(s.stamps, idx, s.sampleRate)
    requires e == WindowEnd(|s.values|, idx) && d == WindowBits(EqualsOne, s.values, DataMask(s.dataIdx), idx, e - idx)
    requires TakeWindow(s, st, idx, e, d) == Ok(st')
    ensures Run(s, st, idx) == Run(s, st', e)
  {
  }

  /** A sample out of sync moves Run one sample on in the desynchronised state. */
  lemma RunOutOfSync(s: Setup, st: FramerState, idx: int)
    requires SetupOk(s) && 0 <= idx < |s.values| - 1 && !InSync(s.stamps, idx, s.sampleRate)
    ensures Run(s, st, idx) == Run(s, Desync(s, st), idx + 1)
  {
  }

  /** The 25th byte of a run decodes the list, clears it and appends exactly one frame event after the window's record. */
  lemma FrameCompleted(s: Setup, st: FramerState, start: int, end: int, d: bv32)
    requires st.byteNdx == 24 && |st.bytes| == 24
    ensures var r := TakeWindow(s, st, start, end, d);
      var records := DataReport(s.dataIdx, s.bitOrder, st.records, start, end, d, st.frameCount);
      var dec := Decode(st.bytes + [WindowByte(d)], st.decoder.(channels := seq(18, _ => 0)));
      r.Ok? && r.value.bytes == [] && r.value.byteNdx == 25 && r.value.frameCount == st.frameCount + 1 &&
      r.value.decoder == dec && r.value.lastLoss == FrameLoss(dec) &&
      r.value.records == records + [r.value.records[|records|]] &&
      r.value.records[|records|].span == Event(end, Some(if st.lastLoss == FrameLoss(dec) then FrameDecodedEvent else FrameLostEvent))
  {
  }

  /** Past the 25th byte of a run no further frame is decoded: the window is only kept and reported. */
  lemma NoSecondFrame(s: Setup, st: FramerState, start: int, end: int, d: bv32)
    requires st.byteNdx >= 25
    ensures TakeWindow(s, st, start, end, d) ==
      Ok(st.(bytes := st.bytes + [WindowByte(d)], byteNdx := st.byteNdx + 1,
             records := DataReport(s.dataIdx, s.bitOrder, st.records, start, end, d, st.frameCount)))
  {
  }

  /** The next k windows from idx on are all in sync. */
  predicate SyncedWindows(s: Setup, idx: int, k: nat)
    requires SetupOk(s) && 0 <= idx
    decreases k
  {
    k == 0 ||
    (idx < |s.values| - 1 && InSync(s.stamps, idx, s.sampleRate) &&
     SyncedWindows(s, WindowEnd(|s.values|, idx), k - 1))
  }

  /** With more bytes pending than counted, the run's 25th byte hands a longer list to setInfoBytes, which throws. */
  lemma {:induction false} PendingBytesAbort(s: Setup, st: FramerState, idx: int)
    requires SetupOk(s) && 0 <= idx
    requires 0 <= st.byteNdx <= 24 && |st.bytes| > st.byteNdx
    requires SyncedWindows(s, idx, 25 - st.byteNdx)
    ensures Run(s, st, idx) == Err(InputMismatch)
    decreases 25 - st.byteNdx
  {
    var e := WindowEnd(|s.values|, idx);
    var d := WindowBits(EqualsOne, s.values, DataMask(s.dataIdx), idx, e - idx);
    if st.byteNdx < 24 {
      PendingBytesAbort(s, TakeWindow(s, st, idx, e, d).value, e);
    }
  }

  /**
   * As written, a desync keeps the bytes of a broken frame: after it, 25
   * windows in sync end the task with an InputMismatchException.
   */
  lemma MismatchAfterDesync(s: Setup, st: FramerState, idx: int)
    requires SetupOk(s) && !s.clearsOnDesync && 0 <= idx < |s.values| - 1
    requires !InSync(s.stamps, idx, s.sampleRate) && |st.bytes| > 0
    requires SyncedWindows(s, idx + 1, 25)
    ensures Run(s, st, idx) == Err(InputMismatch)
  {
    PendingBytesAbort(s, Desync(s, st), idx + 1);
  }

  /** The only error a run can end with is setInfoBytes' InputMismatchException. */
  lemma {:induction false} RunFailsOnlyOnMismatch(s: Setup, st: FramerState, idx: int)
    requires SetupOk(s) && 0 <= idx
    ensures Run(s, st, idx).Err? ==> Run(s, st, idx).error == InputMismatch
    decreases |s.values| - idx
  {
    if idx < |s.values| - 1 {
      if InSync(s.stamps, idx, s.sampleRate) {
        var e := WindowEnd(|s.values|, idx);
        var d := WindowBits(EqualsOne, s.values, DataMask(s.dataIdx), idx, e - idx);
        if TakeWindow(s, st, idx, e, d).Ok? {
          RunFailsOnlyOnMismatch(s, TakeWindow(s, st, idx, e, d).value, e);
        }
      } else {
        RunFailsOnlyOnMismatch(s, Desync(s, st), idx + 1);
      }
    }
  }

  /** Until the 25th byte of a run, the pending list holds exactly the bytes counted. */
  ghost predicate Counted(st: FramerState)
  {
    st.byteNdx >= 0 && (st.byteNdx < 25 ==> |st.bytes| == st.byteNdx)
  }

  /** A framer that clears the list on a desync always hands exactly 25 bytes to the decoder. */
  lemma {:induction false} CorrectedFramerNeverMismatches(s: Setup, st: FramerState, idx: int)
    requires SetupOk(s) && s.clearsOnDesync && 0 <= idx && Counted(st)
    ensures Run(s, st, idx).Ok?
    decreases |s.values| - idx
  {
    if idx < |s.values| - 1 {
      if InSync(s.stamps, idx, s.sampleRate) {
        var e := WindowEnd(|s.values|, idx);
        var d := WindowBits(EqualsOne, s.values, DataMask(s.dataIdx), idx, e - idx);
        CorrectedFramerNeverMismatches(s, TakeWindow(s, st, idx, e, d).value, e);
      } else {
        CorrectedFramerNeverMismatches(s, Desync(s, st), idx + 1);
      }
    }
  }

  /** The framer starts with nothing pending. */
  lemma InitialFramerCounted()
    ensures Counted(InitialFramer())
  {
  }

  /** reportData (lines 475-498): for a data channel index >= 0, one DATA record of the bit-order-converted window. */
  method ReportData(ds: DataSet, dataIdx: int, bitOrder: bv32 -> int, start: int, end: int, d: bv32, frame: int)
    requires ds.Valid()
    modifies ds
    ensures ds.Valid()
    ensures ds.records == DataReport(dataIdx, bitOrder, old(ds.records), start, end, d, frame)
  {
    if dataIdx >= 0 {
      ds.ReportSbusData(dataIdx, start, end, bitOrder(d), frame);
    }
  }

  /**
   * The full-frame branch of the framer (lines 264-280): decode the 25
   * collected bytes and report FRAME DECODED or FRAME LOST; the result is
   * the new frame loss. setInfoBytes throws when the list is not 25 long.
   */
  method CompleteFrame(ds: DataSet, decoder: Decoder, bytes: seq<bv32>, lastLoss: int, dataIdx: int, idx: int)
    returns (r: Result<int>)
    requires ds.Valid() && decoder.Valid()
    modifies ds, decoder, decoder.infoBytes, decoder.channels
    ensures decoder.infoBytes == old(decoder.infoBytes) && decoder.channels == old(decoder.channels)
    ensures ds.Valid() && decoder.Valid()
    ensures r.Err? <==> |bytes| != BytesPerFrame
    ensures r.Err? ==> r.error == InputMismatch
    ensures r.Ok? ==> var dec := Decode(bytes, old(decoder.State()).(channels := seq(18, _ => 0)));
      decoder.State() == dec && r.value == FrameLoss(dec) &&
      ds.records == old(ds.records) + [FrameEvent(dec, lastLoss, old(ds.records), idx)]
  {
    var outcome := decoder.SetInfoBytes(bytes);
    if outcome.Fail? {
      return Err(outcome.error);
    }
    decoder.Process();
    var loss := decoder.GetFrameLoss().value;
    if lastLoss == loss {
      ds.ReportEvent(dataIdx, 0, Some(FrameDecodedEvent), idx, Some(decoder.ToString()));
    } else {
      ds.ReportEvent(dataIdx, 0, Some(FrameLostEvent), idx, Some(decoder.ToString()));
    }
    return Ok(loss);
  }

  /**
   * The in-sync branch of the framer (lines 247-281): read a window from
   * start, keep its byte, report it, and decode the frame at the 25th byte.
   */
  method CollectByte(ds: DataSet, decoder: Decoder, s: Setup, mask: bv32, start: int,
                     bytes: seq<bv32>, byteNdx: int, frameCount: int, lastLoss: int)
    returns (outcome: Outcome, idx: int, bytes': seq<bv32>, byteNdx': int, frameCount': int, lastLoss': int)
    requires SetupOk(s) && 0 <= start < |s.values| - 1 && mask == DataMask(s.dataIdx)
    requires ds.Valid() && decoder.Valid()
    modifies ds, decoder, decoder.infoBytes, decoder.channels
    ensures ds.Valid() && decoder.Valid()
    ensures decoder.infoBytes == old(decoder.infoBytes) && decoder.channels == old(decoder.channels)
    ensures idx == WindowEnd(|s.values|, start)
    ensures var want := TakeWindow(s, old(FramerState(bytes, byteNdx, frameCount, lastLoss, decoder.State(), ds.records)),
                                   start, idx, WindowBits(EqualsOne, s.values, mask, start, idx - start));
      (outcome.Fail? <==> want.Err?) && (outcome.Fail? ==> outcome.error == want.error) &&
      (outcome.Pass? ==> want.value == FramerState(bytes', byteNdx', frameCount', lastLoss', decoder.State(), ds.records))
  {
    ghost var st := FramerState(bytes, byteNdx, frameCount, lastLoss, decoder.State(), ds.records);
    var d;
    d, idx := ReadWindow(EqualsOne, s.values, mask, start);
    TakeWindowCases(s, st, start, idx, d);
    bytes', frameCount', lastLoss' := bytes + [WindowByte(d)], frameCount, lastLoss;
    ReportData(ds, s.dataIdx, s.bitOrder, start, idx, d, frameCount);
    byteNdx' := byteNdx + 1;
    if byteNdx' == BytesPerFrame {
      frameCount' := frameCount' + 1;
      ghost var reported := ds.records;
      var r := CompleteFrame(ds, decoder, bytes', lastLoss, s.dataIdx, idx);
      if r.Err? {
        return Fail(r.error), idx, bytes', byteNdx', frameCount', lastLoss';
      }
      bytes', lastLoss' := [], r.value;
    }
    outcome := Pass;
  }

  /** The framer's loop (lines 236-311) over a resampled stream, as the pure Run describes it. */
  method FrameWindows(c: Captured, dataIdx: int, bitOrder: bv32 -> int) returns (r: Result<DataSet>)
    requires |c.values| == |c.timestamps|
    ensures var want := Run(Setup(c.values, c.timestamps, c.sampleRate, dataIdx, bitOrder, false), InitialFramer(), 0);
      (r.Err? <==> want.Err?) && (r.Err? ==> r.error == want.error) &&
      (r.Ok? ==> fresh(r.value) && r.value.Valid() && r.value.records == want.value.records)
    ensures r.Ok? ==> r.value.startOfDecode == 0 && r.value.endOfDecode == |c.values| - 1 && r.value.sampleRate == c.sampleRate
  {
    var vs, ts := c.values, c.timestamps;
    var s := Setup(vs, ts, c.sampleRate, dataIdx, bitOrder, false);
    ghost var goal := Run(s, InitialFramer(), 0);
    var ds := new DataSet(0, |vs| - 1, c.sampleRate);
    var mask := DataMask(dataIdx);
    var bytes: seq<bv32> := [];
    var decoder := new Decoder();
    var byteNdx, frameCount, lastLoss, idx := 0, 1, 0, 0;
    while idx < |vs| - 1
      invariant 0 <= idx
      invariant fresh(ds) && fresh(decoder) && fresh(decoder.infoBytes) && fresh(decoder.channels)
      invariant ds.Valid() && decoder.Valid()
      invariant ds.startOfDecode == 0 && ds.endOfDecode == |vs| - 1 && ds.sampleRate == c.sampleRate
      invariant Run(s, FramerState(bytes, byteNdx, frameCount, lastLoss, decoder.State(), ds.records), idx) == goal
      decreases |vs| - idx
    {
      ghost var st := FramerState(bytes, byteNdx, frameCount, lastLoss, decoder.State(), ds.records);
      if (ts[idx + 1] - ts[idx]) * 100000 <= c.sampleRate {
        var start := idx;
        var outcome;
        outcome, idx, bytes, byteNdx, frameCount, lastLoss :=
          CollectByte(ds, decoder, s, mask, start, bytes, byteNdx, frameCount, lastLoss);
        if outcome.Fail? {
          return Err(outcome.error);
        }
        RunInSync(s, st, start, idx, WindowBits(EqualsOne, vs, mask, start, idx - start),
                  FramerState(bytes, byteNdx, frameCount, lastLoss, decoder.State(), ds.records));
      } else {
        RunOutOfSync(s, st, idx);
        idx := idx + 1;
        byteNdx := 0;
      }
    }
    return Ok(ds);
  }

  /** The framer's run over the resampler's output. */
  function FramedRun(a: Acquisition, dataIdx: int, bitOrder: bv32 -> int): Result<FramerState>
    requires WellFormed(a) && a.sampleRate >= MinSampleRate
  {
    var c := Resampled(a, dataIdx);
    Run(Setup(c.values, c.stamps, a.sampleRate, dataIdx, bitOrder, false), InitialFramer(), 0)
  }

  /**
   * clockDataOnEdge (lines 223-312): resample, then frame the result. The
   * resampler throws when it finds no frame; the decoder throws when a
   * desync left bytes behind.
   */
  method ClockDataOnEdge(a: Acquisition, dataIdx: int, bitOrder: bv32 -> int) returns (r: Result<DataSet>)
    requires WellFormed(a) && a.sampleRate >= MinSampleRate
    ensures Resampled(a, dataIdx).values == [] ==> r == Err(IndexOutOfBounds)
    ensures Resampled(a, dataIdx).values != [] ==>
      (r.Err? <==> FramedRun(a, dataIdx, bitOrder).Err?) &&
      (r.Err? ==> r.error == FramedRun(a, dataIdx, bitOrder).error) &&
      (r.Ok? ==> r.value.records == FramedRun(a, dataIdx, bitOrder).value.records)
    ensures (forall i | 0 < i < |a.values| - 1 :: !FrameGapAt(a, i)) ==> r == Err(IndexOutOfBounds)
    ensures r.Err? ==> r.error == IndexOutOfBounds || r.error == InputMismatch
    ensures r.Ok? ==> fresh(r.value) && r.value.Valid() && r.value.startOfDecode == 0 && r.value.sampleRate == a.sampleRate
    ensures r.Ok? ==> r.value.endOfDecode == |Resampled(a, dataIdx).values| - 1
  {
    ResampledEmptyIff(a, dataIdx);
    var resampled := CreateBitSampledFrames(a, dataIdx);
    if resampled.Err? {
      return Err(resampled.error);
    }
    var c := resampled.value;
    r := FrameWindows(c, dataIdx, bitOrder);
    if r.Err? {
      assert Run(Setup(c.values, c.timestamps, c.sampleRate, dataIdx, bitOrder, false), InitialFramer(), 0).Err?;
      RunFailsOnlyOnMismatch(Setup(c.values, c.timestamps, c.sampleRate, dataIdx, bitOrder, false), InitialFramer(), 0);
    }
  }

  /**
   * call() without the mode detection (lines 118-157): below 200 kHz the
   * fresh data set comes back without records, otherwise the framer's.
   */
  method Call(a: Acquisition, startOfDecode: int, endOfDecode: int, dataIdx: int, bitOrder: bv32 -> int)
    returns (r: Result<DataSet>)
    requires WellFormed(a)
    ensures a.sampleRate < MinSampleRate ==>
      (r.Ok? && fresh(r.value) && r.value.Valid() && r.value.records == [] && r.value.frameCount == 0 &&
       r.value.startOfDecode == startOfDecode && r.value.endOfDecode == endOfDecode && r.value.sampleRate == a.sampleRate)
    ensures a.sampleRate >= MinSampleRate && (forall i | 0 < i < |a.values| - 1 :: !FrameGapAt(a, i)) ==> r == Err(IndexOutOfBounds)
    ensures a.sampleRate >= MinSampleRate && Resampled(a, dataIdx).values == [] ==> r == Err(IndexOutOfBounds)
    ensures a.sampleRate >= MinSampleRate && Resampled(a, dataIdx).values != [] ==>
      (r.Err? <==> FramedRun(a, dataIdx, bitOrder).Err?) &&
      (r.Err? ==> r.error == FramedRun(a, dataIdx, bitOrder).error)
    ensures a.sampleRate >= MinSampleRate && r.Ok? ==>
      (fresh(r.value) && r.value.Valid() && r.value.startOfDecode == 0 && r.value.sampleRate == a.sampleRate &&
       r.value.endOfDecode == |Resampled(a, dataIdx).values| - 1 &&
       FramedRun(a, dataIdx, bitOrder).Ok? && r.value.records == FramedRun(a, dataIdx, bitOrder).value.records)
    ensures r.Err? ==> r.error == IndexOutOfBounds || r.error == InputMismatch
  {
    var decodedData := new DataSet(startOfDecode, endOfDecode, a.sampleRate);
    if decodedData.sampleRate < MinSampleRate {
      return Ok(decodedData);
    }
    r := ClockDataOnEdge(a, dataIdx, bitOrder);
  }
}
