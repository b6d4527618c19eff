# S.BUS decoding in OLS, modelled in Dafny

This project models the Futaba S.BUS analysis tool of the OLS logic analyser
client, together with the metadata map of the SUMP logic sniffer device.

- **Frame decoder** (`SbusDecoder`, a class over `infoBytes` and `channels`
  arrays). It checks the 0xF0/0x00 markers of a 25-byte frame, unpacks 16
  analog channels with the source's shift/mask expressions, and reverses each
  one's 11 bits. It reads both digital channels and the frame-lost and
  failsafe flags from byte 23, counts good, lost and error frames, and
  computes the integer frame-loss percentage. `Process` is proved against the
  pure `Decode`.
- **Resampler** (`SbusAnalyserTask.CreateBitSampledFrames`). It turns the
  edge list of the data line into one sample per bit period. After every idle
  gap longer than a frame it writes 300 bit samples and one end marker. Its
  loops are proved against the pure `BitRuns`, `ResampledBlock` and `Frames`.
- **Framer** (`SbusAnalyserTask.FrameWindows`, `ClockDataOnEdge`, `Call`).
  It reads 12-sample 8E2 windows, collects 25 bytes, runs the decoder, and
  appends DATA records and FRAME DECODED / FRAME LOST events to the data set.
  The loop is proved against the pure `Run`. `Call` frames only at sample
  rates of 200 kHz and above.
- **Result records** (`SbusData`, and the class `SbusDataSet.DataSet`). The
  data set is an append-only list: each record's index is the previous size,
  and the running maximum frame index is kept alongside.
- **Modes** (`SbusMode`): the labels and the sampling edges.
- **Device metadata** (`LogicSnifferMetadata`). A class over an
  integer-keyed map. `put` refuses a second binding of a key. The getters fall
  back from the long key to the short key, or to a caller's default.

The source compares and divides in `float`/`double`; the model uses the exact
integer forms:

- samples per bit period is `sampleRate / 100000`;
- `Math.round(dt / spbp)` is `(2 * dt + spbp) / (2 * spbp)`;
- the framer's `dt <= sampleRate * 1e-5` is `dt * 100000 <= sampleRate`.

Java `int` bit patterns are `bv32`. `NumberUtils.convertBitOrder` is not part
of this model; it is a function parameter `bitOrder`.

## Model

| member | source | states |
|---|---|---|
| SbusDecoder.Reverse11 | tool.sbus/src/main/java/nl/lxtreme/ols/tool/sbus/SBUSDecoder.java:264-277 | the bit-reversed value lies in 0 .. 2047 |
| SbusDecoder.Reverse11Bits | tool.sbus/src/main/java/nl/lxtreme/ols/tool/sbus/SBUSDecoder.java:264-277 | output bit 10-k is set exactly when input bit k is, for k in 0 .. 10 |
| SbusDecoder.Reverse11IgnoresHighBits | tool.sbus/src/main/java/nl/lxtreme/ols/tool/sbus/SBUSDecoder.java:264-277 | bits above bit 10 of the input do not matter |
| SbusDecoder.Reverse11Involutive | tool.sbus/src/main/java/nl/lxtreme/ols/tool/sbus/SBUSDecoder.java:264-277 | reversing twice gives back any value in 0 .. 2047 |
| SbusDecoder.ReversedPrefixComplete | tool.sbus/src/main/java/nl/lxtreme/ols/tool/sbus/SBUSDecoder.java:266-276 | the loop's running sum `tmpData += i` after all 11 steps equals the bit reversal |
| SbusDecoder.RawChannel | tool.sbus/src/main/java/nl/lxtreme/ols/tool/sbus/SBUSDecoder.java:216-232 | each of the 16 shift/mask expressions, as written, yields a value below 0x800 |
| SbusDecoder.ChannelValue | tool.sbus/src/main/java/nl/lxtreme/ols/tool/sbus/SBUSDecoder.java:235-236 | an analog channel after reverseData lies in 0 .. 2047 |
| SbusDecoder.DigitalChannel | tool.sbus/src/main/java/nl/lxtreme/ols/tool/sbus/SBUSDecoder.java:238-246 | a digital channel reads 0 or 2047 |
| SbusDecoder.Channels | tool.sbus/src/main/java/nl/lxtreme/ols/tool/sbus/SBUSDecoder.java:216-246 | 18 channels, all in 0 .. 2047; channel 17 is 2047 exactly when flag 0x80 is set, channel 18 exactly when 0x40 is; each is 0 exactly when its flag is clear |
| SbusDecoder.ChannelsFrom | tool.sbus/src/main/java/nl/lxtreme/ols/tool/sbus/SBUSDecoder.java:216-246 | any 18 values that fit the per-channel expressions are the decoded channel list |
| SbusDecoder.InitialState | tool.sbus/src/main/java/nl/lxtreme/ols/tool/sbus/SBUSDecoder.java:128-142 | a new decoder has 18 zero channels and all counters at 0 |
| SbusDecoder.Decode | tool.sbus/src/main/java/nl/lxtreme/ols/tool/sbus/SBUSDecoder.java:207-259 | exactly one of goodFrames and decoderErrorFrames grows, by one. A bad marker changes nothing but decoderErrorFrames. A good frame sets the channels. lostFrames grows exactly on a good frame with flag 0x20. failsafe is active exactly when flag 0x10 is set. lostFrames <= goodFrames is kept |
| SbusDecoder.AcceptedFrame | tool.sbus/src/main/java/nl/lxtreme/ols/tool/sbus/SBUSDecoder.java:214-256 | a state with the good-frame effects of every line of the accepting path is Decode's result |
| SbusDecoder.RejectedFrameKeepsClearedChannels | tool.sbus/src/main/java/nl/lxtreme/ols/tool/sbus/SBUSDecoder.java:178-188 | after setInfoBytes clears the channels, a rejected frame leaves every channel at 0 |
| SbusDecoder.FrameLossPercent | tool.sbus/src/main/java/nl/lxtreme/ols/tool/sbus/SBUSDecoder.java:315-318 | throws exactly when the frame total is 0; otherwise a percentage in 0 .. 100 that is 100 exactly when there is no good frame |
| SbusDecoder.FrameLossMonotone | tool.sbus/src/main/java/nl/lxtreme/ols/tool/sbus/SBUSDecoder.java:207-259 | an error frame never lowers the frame loss, and a good frame without the lost flag never raises it |
| SbusDecoder.ChannelLayout | tool.sbus/src/main/java/nl/lxtreme/ols/tool/sbus/SBUSDecoder.java:216-232 | for every channel index except 2, the expression reads the 11-bit group of the 176 payload bits that the frame layout in SBUSAnalyser.java:38-45 assigns to it |
| SbusDecoder.DecodedChannelLayout | tool.sbus/src/main/java/nl/lxtreme/ols/tool/sbus/SBUSDecoder.java:216-236 | for the same channels, the decoded value is the reversal of that payload group |
| SbusDecoder.ThirdChannelMisread | tool.sbus/src/main/java/nl/lxtreme/ols/tool/sbus/SBUSDecoder.java:218 | for one frame, the channel index 2 expression reads 0x200 where the payload group is 0x100 |
| SbusDecoder.CorrectedChannelLayout | tool.sbus/src/main/java/nl/lxtreme/ols/tool/sbus/SBUSDecoder.java:216-232 | with `infoBytes[4]<<1` for channel index 2, every one of the 16 channels reads its payload group |
| SbusDecoder.DecimalRoundTrip | tool.sbus/src/main/java/nl/lxtreme/ols/tool/sbus/SBUSDecoder.java:350-352 | the decimal text of a counter parses back to the counter |
| SbusDecoder.IntStringRoundTrip | tool.sbus/src/main/java/nl/lxtreme/ols/tool/sbus/SBUSDecoder.java:350-352 | the text of any int, with its sign, parses back to it |
| SbusDecoder.ListString | tool.sbus/src/main/java/nl/lxtreme/ols/tool/sbus/SBUSDecoder.java:351 | Arrays.toString is bracketed |
| SbusDecoder.ItemsCommas | tool.sbus/src/main/java/nl/lxtreme/ols/tool/sbus/SBUSDecoder.java:351 | the list text has one ", " fewer than it has items |
| SbusDecoder.Decoder.constructor | tool.sbus/src/main/java/nl/lxtreme/ols/tool/sbus/SBUSDecoder.java:128-142 | 25 zero bytes, the initial state |
| SbusDecoder.Decoder.FromList | tool.sbus/src/main/java/nl/lxtreme/ols/tool/sbus/SBUSDecoder.java:81-98 | throws InputMismatch exactly when the list is not 25 long; otherwise it holds the list's bytes in the initial state |
| SbusDecoder.Decoder.FromArray | tool.sbus/src/main/java/nl/lxtreme/ols/tool/sbus/SBUSDecoder.java:104-121 | InputMismatch when the size is not 25, an index error when the array is shorter, otherwise the first 25 entries |
| SbusDecoder.Decoder.GetInfoBytes | tool.sbus/src/main/java/nl/lxtreme/ols/tool/sbus/SBUSDecoder.java:173-176 | returns the decoder's own array, not a copy |
| SbusDecoder.Decoder.SetInfoBytes | tool.sbus/src/main/java/nl/lxtreme/ols/tool/sbus/SBUSDecoder.java:178-188 | throws for a list not 25 long and changes nothing; otherwise it copies all 25 entries and zeroes all 18 channels |
| SbusDecoder.Decoder.ReverseData | tool.sbus/src/main/java/nl/lxtreme/ols/tool/sbus/SBUSDecoder.java:264-277 | the loop computes the 11-bit reversal |
| SbusDecoder.Decoder.Process | tool.sbus/src/main/java/nl/lxtreme/ols/tool/sbus/SBUSDecoder.java:207-259 | the new state is Decode of the bytes and the old state, so every property of Decode holds |
| SbusDecoder.Decoder.DecodeAnalogChannels | tool.sbus/src/main/java/nl/lxtreme/ols/tool/sbus/SBUSDecoder.java:216-236 | the 16 analog channels hold their decoded values, the digital ones are untouched |
| SbusDecoder.Decoder.GetChannel | tool.sbus/src/main/java/nl/lxtreme/ols/tool/sbus/SBUSDecoder.java:283-290 | 0 outside 1 .. 18, otherwise channel n-1; always in 0 .. 2047 |
| SbusDecoder.Decoder.GetFailsafeStatus | tool.sbus/src/main/java/nl/lxtreme/ols/tool/sbus/SBUSDecoder.java:307-310 | the failsafe flag, one of the two constants |
| SbusDecoder.Decoder.GetLostFrames | tool.sbus/src/main/java/nl/lxtreme/ols/tool/sbus/SBUSDecoder.java:331-334 | never more than goodFrames |
| SbusData.EventRecord | tool.sbus/src/main/java/nl/lxtreme/ols/tool/sbus/SBUSData.java:53-61 | an event record has value 0, no name, frame and byte index -1, the given text, and is neither data nor DATA nor BYTE |
| SbusData.DataRecord | tool.sbus/src/main/java/nl/lxtreme/ols/tool/sbus/SBUSData.java:68-77 | a data record keeps name, value, range, frame and byte index, with no text |
| SbusData.Trim | tool.sbus/src/main/java/nl/lxtreme/ols/tool/sbus/SBUSData.java:163-166 | String.trim: no longer, no control or space character at either end, empty only for all-blank text |
| SbusData.TrimEmptyIff | tool.sbus/src/main/java/nl/lxtreme/ols/tool/sbus/SBUSData.java:163-166 | trimming gives "" exactly when every character is a space or control character |
| SbusData.IsDataIff | tool.sbus/src/main/java/nl/lxtreme/ols/tool/sbus/SBUSData.java:163-166 | isData holds exactly for a present name with a non-blank character |
| SbusData.SbusKindsExclusive | tool.sbus/src/main/java/nl/lxtreme/ols/tool/sbus/SBUSData.java:171-182 | no record is both DATA and BYTE |
| SbusData.SbusKindsAreData | tool.sbus/src/main/java/nl/lxtreme/ols/tool/sbus/SBUSData.java:163-182 | DATA and BYTE records are data |
| SbusDataSet.MaxFrameIsMaximum | tool.sbus/src/main/java/nl/lxtreme/ols/tool/sbus/SBUSDataSet.java:53-68 | the kept frame count bounds every record's frame index and is 0 or one of them |
| SbusDataSet.MaxFrameAppend | tool.sbus/src/main/java/nl/lxtreme/ols/tool/sbus/SBUSDataSet.java:57 | a report raises the frame count to its frame index when that is larger |
| SbusDataSet.DataSet.constructor | tool.sbus/src/main/java/nl/lxtreme/ols/tool/sbus/SBUSDataSet.java:44-48 | no records, frame count 0, the decode range and sample rate |
| SbusDataSet.DataSet.ReportSbusData | tool.sbus/src/main/java/nl/lxtreme/ols/tool/sbus/SBUSDataSet.java:53-58 | appends one DATA record indexed by the old size, byte index -1; frame count becomes the maximum |
| SbusDataSet.DataSet.ReportSbusByte | tool.sbus/src/main/java/nl/lxtreme/ols/tool/sbus/SBUSDataSet.java:63-68 | appends one BYTE record indexed by the old size; frame count becomes the maximum |
| SbusDataSet.DataSet.ReportEvent | tool.sbus/src/main/java/nl/lxtreme/ols/tool/sbus/SBUSDataSet.java:73-77 | appends one event record and leaves the frame count alone |
| SbusDataSet.DataSet.GetFrameCount | tool.sbus/src/main/java/nl/lxtreme/ols/tool/sbus/SBUSDataSet.java:79-82 | the largest reported frame index, or 0 |
| SbusDataSet.DataSet.Size | tool.sbus/src/main/java/nl/lxtreme/ols/tool/sbus/SBUSDataSet.java:55 | every record's index is its position |
| SbusMode.Ordinal | tool.sbus/src/main/java/nl/lxtreme/ols/tool/sbus/SBUSMode.java:45-51 | each mode sits at its place in the declared order |
| SbusMode.ValuesComplete | tool.sbus/src/main/java/nl/lxtreme/ols/tool/sbus/SBUSMode.java:45-51 | exactly three distinct modes |
| SbusMode.ModeString | tool.sbus/src/main/java/nl/lxtreme/ols/tool/sbus/SBUSMode.java:55-71 | "Unknown" exactly for AUTODETECT, "Low Speed" exactly for LOW_SPEED, otherwise "High Speed" (null too) |
| SbusMode.SampleEdge | tool.sbus/src/main/java/nl/lxtreme/ols/tool/sbus/SBUSMode.java:95-98 | RISING for every mode |
| SbusMode.DataChangeEdge | tool.sbus/src/main/java/nl/lxtreme/ols/tool/sbus/SBUSMode.java:81-84 | the inversion of the sample edge, i.e. FALLING |
| SbusMode.InvertInvolutive | tool.sbus/src/main/java/nl/lxtreme/ols/tool/sbus/SBUSMode.java:81-84 | inverting an edge twice gives it back |
| LogicSnifferMetadata.Lookup | device.logicsniffer/src/main/java/org/sump/device/logicsniffer/LogicSnifferMetadata.java:56-95 | Map.get is null exactly for an unbound key or a null value |
| LogicSnifferMetadata.AsText | device.logicsniffer/src/main/java/org/sump/device/logicsniffer/LogicSnifferMetadata.java:56-59 | the (String) cast: null stays null, a String passes, anything else throws ClassCast |
| LogicSnifferMetadata.AsInteger | device.logicsniffer/src/main/java/org/sump/device/logicsniffer/LogicSnifferMetadata.java:65-68 | the (Integer) cast: null stays null, an Integer passes, anything else throws ClassCast |
| LogicSnifferMetadata.LookupAfterInsert | device.logicsniffer/src/main/java/org/sump/device/logicsniffer/LogicSnifferMetadata.java:179-187 | binding a new key changes no other lookup |
| LogicSnifferMetadata.WithFallback | device.logicsniffer/src/main/java/org/sump/device/logicsniffer/LogicSnifferMetadata.java:101-109 | the long key's value when present, else the short key's |
| LogicSnifferMetadata.OrDefault | device.logicsniffer/src/main/java/org/sump/device/logicsniffer/LogicSnifferMetadata.java:114-122 | the default exactly when the lookup is null, the value otherwise, errors passed on |
| LogicSnifferMetadata.NullLongKeyFallsBack | device.logicsniffer/src/main/java/org/sump/device/logicsniffer/LogicSnifferMetadata.java:101-109 | a null long key falls back too |
| LogicSnifferMetadata.Metadata.constructor | device.logicsniffer/src/main/java/org/sump/device/logicsniffer/LogicSnifferMetadata.java:43-48 | no bindings |
| LogicSnifferMetadata.Metadata.Put | device.logicsniffer/src/main/java/org/sump/device/logicsniffer/LogicSnifferMetadata.java:179-187 | a bound key throws IllegalState and leaves the map; otherwise exactly that binding is added |
| LogicSnifferMetadata.Metadata.GetAncillaryVersion | device.logicsniffer/src/main/java/org/sump/device/logicsniffer/LogicSnifferMetadata.java:56-59 | the String bound to its key, or null |
| LogicSnifferMetadata.Metadata.GetDynamicMemoryDepth | device.logicsniffer/src/main/java/org/sump/device/logicsniffer/LogicSnifferMetadata.java:65-68 | the Integer bound to its key, or null |
| LogicSnifferMetadata.Metadata.GetFpgaVersion | device.logicsniffer/src/main/java/org/sump/device/logicsniffer/LogicSnifferMetadata.java:74-77 | the String bound to its key, or null |
| LogicSnifferMetadata.Metadata.GetMaxSampleRate | device.logicsniffer/src/main/java/org/sump/device/logicsniffer/LogicSnifferMetadata.java:83-86 | the Integer bound to its key, or null |
| LogicSnifferMetadata.Metadata.GetName | device.logicsniffer/src/main/java/org/sump/device/logicsniffer/LogicSnifferMetadata.java:92-95 | the String bound to its key, or null |
| LogicSnifferMetadata.Metadata.GetProbeCount | device.logicsniffer/src/main/java/org/sump/device/logicsniffer/LogicSnifferMetadata.java:101-109 | the long key's Integer if present, else the short key's; null exactly when neither is |
| LogicSnifferMetadata.Metadata.GetProbeCountOr | device.logicsniffer/src/main/java/org/sump/device/logicsniffer/LogicSnifferMetadata.java:114-122 | the default exactly when getProbeCount() is null |
| LogicSnifferMetadata.Metadata.GetProtocolVersion | device.logicsniffer/src/main/java/org/sump/device/logicsniffer/LogicSnifferMetadata.java:128-136 | the same long-then-short fallback |
| LogicSnifferMetadata.Metadata.GetSampleMemoryDepth | device.logicsniffer/src/main/java/org/sump/device/logicsniffer/LogicSnifferMetadata.java:142-145 | the Integer bound to its key, or null |
| LogicSnifferMetadata.Metadata.GetSampleMemoryDepthOr | device.logicsniffer/src/main/java/org/sump/device/logicsniffer/LogicSnifferMetadata.java:150-158 | the default exactly when getSampleMemoryDepth() is null |
| SbusAnalyserTask.Round | tool.sbus/src/main/java/nl/lxtreme/ols/tool/sbus/SBUSAnalyserTask.java:358 | rounding a non-negative interval gives a non-negative bit count |
| SbusAnalyserTask.RunLength | tool.sbus/src/main/java/nl/lxtreme/ols/tool/sbus/SBUSAnalyserTask.java:358-359 | nBits never exceeds what the frame still lacks, 300 - bitCounter, and is never negative |
| SbusAnalyserTask.BitRuns | tool.sbus/src/main/java/nl/lxtreme/ols/tool/sbus/SBUSAnalyserTask.java:352-370 | the inner loop takes as many samples as the frame still lacks at most, and its stop index only moves forward, past idx whenever it took a sample |
| SbusAnalyserTask.BitRunsStep | tool.sbus/src/main/java/nl/lxtreme/ols/tool/sbus/SBUSAnalyserTask.java:352-370 | one pass of the inner loop: edge idx - 1 contributes exactly RunLength copies of its level, stamped one bit period apart from its time, ahead of the runs of the later edges |
| SbusAnalyserTask.Padded | tool.sbus/src/main/java/nl/lxtreme/ols/tool/sbus/SBUSAnalyserTask.java:371-383 | after padding the frame has exactly 300 samples, the runs unchanged in front; idx moves on by one exactly when the runs left the frame short |
| SbusAnalyserTask.ResampledBlock | tool.sbus/src/main/java/nl/lxtreme/ols/tool/sbus/SBUSAnalyserTask.java:346-387 | a block is exactly 301 samples and its end index lies between its first bit transition and the end of the input |
| SbusAnalyserTask.Frames | tool.sbus/src/main/java/nl/lxtreme/ols/tool/sbus/SBUSAnalyserTask.java:342-393 | the outer loop writes as many timestamps as values |
| SbusAnalyserTask.FramesAtGap | tool.sbus/src/main/java/nl/lxtreme/ols/tool/sbus/SBUSAnalyserTask.java:344-387 | at a gap longer than a frame with an edge after it, the output is that frame's block followed by the loop from the block's end index |
| SbusAnalyserTask.FramesElsewhere | tool.sbus/src/main/java/nl/lxtreme/ols/tool/sbus/SBUSAnalyserTask.java:342-392 | an edge without a gap adds nothing and moves on by one; at the last edge or beyond, nothing more is written |
| SbusAnalyserTask.FirstStart | tool.sbus/src/main/java/nl/lxtreme/ols/tool/sbus/SBUSAnalyserTask.java:338-341 | the first loop stops at or after its start and not past the end of the input |
| SbusAnalyserTask.FirstStartQuiet | tool.sbus/src/main/java/nl/lxtreme/ols/tool/sbus/SBUSAnalyserTask.java:338-341 | every edge the first loop passes is not preceded by a gap longer than a frame |
| SbusAnalyserTask.FramesEmptyIff | tool.sbus/src/main/java/nl/lxtreme/ols/tool/sbus/SBUSAnalyserTask.java:342-393 | the outer loop writes nothing exactly when no edge from idx on, the last excepted, follows a gap longer than a frame |
| SbusAnalyserTask.ResampledEmptyIff | tool.sbus/src/main/java/nl/lxtreme/ols/tool/sbus/SBUSAnalyserTask.java:336-393 | the resampler writes nothing exactly when no edge but the last follows a gap longer than a frame |
| SbusAnalyserTask.RunSampled | tool.sbus/src/main/java/nl/lxtreme/ols/tool/sbus/SBUSAnalyserTask.java:363-368 | every sample of a run of edge i is edge i's level at one of its bit times |
| SbusAnalyserTask.BitRunsSampled | tool.sbus/src/main/java/nl/lxtreme/ols/tool/sbus/SBUSAnalyserTask.java:352-370 | every sample of the inner loop is some edge's level at one of its bit times |
| SbusAnalyserTask.PaddedSampled | tool.sbus/src/main/java/nl/lxtreme/ols/tool/sbus/SBUSAnalyserTask.java:371-383 | after padding, every sample is still some edge's level at one of its bit times |
| SbusAnalyserTask.MarkedIsFrame | tool.sbus/src/main/java/nl/lxtreme/ols/tool/sbus/SBUSAnalyserTask.java:384-387 | 300 drawn samples followed by the end marker, 1 one bit period after the last sample, make a frame |
| SbusAnalyserTask.ResampledBlockIsFrame | tool.sbus/src/main/java/nl/lxtreme/ols/tool/sbus/SBUSAnalyserTask.java:346-387 | every block is 300 samples drawn from the input followed by the end marker |
| SbusAnalyserTask.PrependFrame | tool.sbus/src/main/java/nl/lxtreme/ols/tool/sbus/SBUSAnalyserTask.java:342-393 | a frame placed before a stream of frames gives a stream of one more frame |
| SbusAnalyserTask.FramesFramed | tool.sbus/src/main/java/nl/lxtreme/ols/tool/sbus/SBUSAnalyserTask.java:342-393 | the outer loop's output is a whole number of 301-sample frames, each a FrameBlock |
| SbusAnalyserTask.AppendRun | tool.sbus/src/main/java/nl/lxtreme/ols/tool/sbus/SBUSAnalyserTask.java:363-368 | the for loop appends n copies of the level, stamped one bit period apart from the edge's time |
| SbusAnalyserTask.CollectRuns | tool.sbus/src/main/java/nl/lxtreme/ols/tool/sbus/SBUSAnalyserTask.java:352-370 | the while loop collects exactly the runs BitRuns describes and stops at its index |
| SbusAnalyserTask.ResampleFrame | tool.sbus/src/main/java/nl/lxtreme/ols/tool/sbus/SBUSAnalyserTask.java:346-387 | the method writes exactly ResampledBlock: the runs, the padding from the last edge read, then the end marker, with idx after the final idx-- |
| SbusAnalyserTask.CollectFrames | tool.sbus/src/main/java/nl/lxtreme/ols/tool/sbus/SBUSAnalyserTask.java:342-393 | the outer loop writes exactly the block sequence Frames describes |
| SbusAnalyserTask.CreateBitSampledFrames | tool.sbus/src/main/java/nl/lxtreme/ols/tool/sbus/SBUSAnalyserTask.java:314-402 | fails (get on the empty list) exactly when the resampled stream is empty; otherwise its values and timestamps are exactly the stream from the first loop's stop index on, and the header fields are those of the source |
| SbusAnalyserTask.CreateBitSampledFramesShape | tool.sbus/src/main/java/nl/lxtreme/ols/tool/sbus/SBUSAnalyserTask.java:336-395 | the resampled stream is empty exactly when no gap longer than a frame exists; otherwise it is a sequence of 301-sample frames drawn from the input |
| SbusAnalyserTask.WindowBits | tool.sbus/src/main/java/nl/lxtreme/ols/tool/sbus/SBUSAnalyserTask.java:250-259 | bit 11-j of a window is set exactly when sample j passes the level test, and nothing above bit 11 |
| SbusAnalyserTask.WindowEnd | tool.sbus/src/main/java/nl/lxtreme/ols/tool/sbus/SBUSAnalyserTask.java:252-259 | a window reads between 1 and 12 samples and never reaches values.length-1 |
| SbusAnalyserTask.ReadWindow | tool.sbus/src/main/java/nl/lxtreme/ols/tool/sbus/SBUSAnalyserTask.java:250-259 | the for loop computes that window and stops at that end |
| SbusAnalyserTask.WindowByte | tool.sbus/src/main/java/nl/lxtreme/ols/tool/sbus/SBUSAnalyserTask.java:260 | the collected byte lies in 0 .. 255 |
| SbusAnalyserTask.WindowByteBits | tool.sbus/src/main/java/nl/lxtreme/ols/tool/sbus/SBUSAnalyserTask.java:260 | bit 8-j of the byte is sample j of the window, for the 8 data samples 1 .. 8 |
| SbusAnalyserTask.DataMaskLowBit | tool.sbus/src/main/java/nl/lxtreme/ols/tool/sbus/SBUSAnalyserTask.java:229 | `1 << dataIdx` has bit 0 exactly when dataIdx is a multiple of 32 |
| SbusAnalyserTask.OtherChannelsReadZero | tool.sbus/src/main/java/nl/lxtreme/ols/tool/sbus/SBUSAnalyserTask.java:254 | on any other data channel every window and byte is 0 |
| SbusAnalyserTask.ChannelZeroAgrees | tool.sbus/src/main/java/nl/lxtreme/ols/tool/sbus/SBUSAnalyserTask.java:254 | on data channel 0 the `== 1` test reads every window as `!= 0` would |
| SbusAnalyserTask.CorrectedWindowReadsLevels | tool.sbus/src/main/java/nl/lxtreme/ols/tool/sbus/SBUSAnalyserTask.java:254-257 | with `!= 0` in place of `== 1`, bit 11-j of a window is set exactly when sample j is high on the data channel |
| SbusAnalyserTask.ChannelOneWindowMisread | tool.sbus/src/main/java/nl/lxtreme/ols/tool/sbus/SBUSAnalyserTask.java:254 | twelve high samples on data channel 1 read 0 where `!= 0` reads 0xFFF |
| SbusAnalyserTask.FrameLoss | tool.sbus/src/main/java/nl/lxtreme/ols/tool/sbus/SBUSAnalyserTask.java:270 | after a decoded frame getFrameLoss() does not throw and lies in 0 .. 100 |
| SbusAnalyserTask.TakeWindow | tool.sbus/src/main/java/nl/lxtreme/ols/tool/sbus/SBUSAnalyserTask.java:247-281 | an in-sync window throws (InputMismatch) exactly when it is the 25th of a run and the list does not then hold 25 bytes |
| SbusAnalyserTask.RunInSync | tool.sbus/src/main/java/nl/lxtreme/ols/tool/sbus/SBUSAnalyserTask.java:244-281 | the loop goes on from the window's end in the state the window leaves |
| SbusAnalyserTask.RunOutOfSync | tool.sbus/src/main/java/nl/lxtreme/ols/tool/sbus/SBUSAnalyserTask.java:282-286 | a sample out of sync moves the loop one sample on after the desync |
| SbusAnalyserTask.FrameCompleted | tool.sbus/src/main/java/nl/lxtreme/ols/tool/sbus/SBUSAnalyserTask.java:262-280 | the 25th byte of a run increments frameCount and decodes the list into a channel-cleared state. It appends exactly one event after the DATA record: FRAME DECODED when the loss equals the previous one, else FRAME LOST. It then clears the list and keeps the new loss |
| SbusAnalyserTask.NoSecondFrame | tool.sbus/src/main/java/nl/lxtreme/ols/tool/sbus/SBUSAnalyserTask.java:262-264 | once byteNdx is past 25, a window only adds its byte and record: at most one frame event per in-sync run |
| SbusAnalyserTask.PendingBytesAbort | tool.sbus/src/main/java/nl/lxtreme/ols/tool/sbus/SBUSAnalyserTask.java:260-268 | with more bytes in the list than byteNdx counts, the run's 25th window throws |
| SbusAnalyserTask.MismatchAfterDesync | tool.sbus/src/main/java/nl/lxtreme/ols/tool/sbus/SBUSAnalyserTask.java:282-286 | a desync with bytes pending, followed by 25 windows in sync, ends the framer with InputMismatch |
| SbusAnalyserTask.RunFailsOnlyOnMismatch | tool.sbus/src/main/java/nl/lxtreme/ols/tool/sbus/SBUSAnalyserTask.java:244-309 | the only exception the loop can raise is setInfoBytes' InputMismatch |
| SbusAnalyserTask.CorrectedFramerNeverMismatches | tool.sbus/src/main/java/nl/lxtreme/ols/tool/sbus/SBUSAnalyserTask.java:282-286 | a framer that also clears the list on a desync never throws |
| SbusAnalyserTask.InitialFramerCounted | tool.sbus/src/main/java/nl/lxtreme/ols/tool/sbus/SBUSAnalyserTask.java:238-243 | the framer starts with an empty list and byteNdx 0 |
| SbusAnalyserTask.ReportData | tool.sbus/src/main/java/nl/lxtreme/ols/tool/sbus/SBUSAnalyserTask.java:475-498 | for dataIdx >= 0 one DATA record of the converted window is appended, otherwise nothing |
| SbusAnalyserTask.CompleteFrame | tool.sbus/src/main/java/nl/lxtreme/ols/tool/sbus/SBUSAnalyserTask.java:264-280 | throws exactly for a list not 25 long; otherwise the decoder holds Decode of the list and one frame event is appended |
| SbusAnalyserTask.CollectByte | tool.sbus/src/main/java/nl/lxtreme/ols/tool/sbus/SBUSAnalyserTask.java:247-281 | the in-sync branch does what TakeWindow says, on the local variables, decoder and data set |
| SbusAnalyserTask.FrameWindows | tool.sbus/src/main/java/nl/lxtreme/ols/tool/sbus/SBUSAnalyserTask.java:236-311 | the loop throws exactly when Run does, and otherwise leaves the records Run computes, in a fresh data set over 0 .. values.length-1 |
| SbusAnalyserTask.ClockDataOnEdge | tool.sbus/src/main/java/nl/lxtreme/ols/tool/sbus/SBUSAnalyserTask.java:223-312 | an empty resampling, and so any acquisition without a frame gap, gives the resampler's index error; otherwise the result fails exactly when the framer's run over the exact resampled stream fails, with its error, which is InputMismatch, and succeeds with that run's records over a fresh data set from 0 to the last resampled index |
| SbusAnalyserTask.Call | tool.sbus/src/main/java/nl/lxtreme/ols/tool/sbus/SBUSAnalyserTask.java:140-156 | below 200 kHz, the fresh data set with no records over the decode range; otherwise ClockDataOnEdge's result: the index error when the resampling is empty (so whenever there is no frame gap), else a failure exactly when the framer's run over the exact resampled stream fails, with its error (InputMismatch), and otherwise that run's records |

## Left out

- detectSBUSMode (SBUSAnalyserTask.java:420-447) and the mode property change: the detector works in double seconds over a Frequency class that is not part of this model, and the mode does not influence the decoding. `Call` models a run whose mode is already set: with a null or AUTODETECT mode, call() first runs detectSBUSMode (SBUSAnalyserTask.java:131-135), before the sample-rate test, and an exception from it would end call(); that path is not modelled.
- The JOptionPane message below 200 kHz, the property-change listeners, the annotation listener calls, prepareResults and the progress reporting are user-interface side effects and are not modelled.
- `NumberUtils.convertBitOrder` is not part of this model: `reportData` applies the parameter `bitOrder`. The `String.format` annotation text and `Character.isLetterOrDigit` are not modelled.
- `getNormalizedChannel` rounds a floating-point division by 9.92 and is left out.
- `equals` and `hashCode` of SBUSDecoder and SBUSData, and `toString` and `iterator` of LogicSnifferMetadata, are left out: reference comparison of arrays, hashing, and map rendering of a class that is not part of this model. SBUSDecoder.toString is modelled as `Describe` over the decoder's state.
- The threshold comparisons use exact integer arithmetic in place of float and double, as described above; inputs where float rounding would flip a comparison are not covered.
- Counters and timestamps are unbounded integers; Java's `long` wrap-around and `int` overflow of `samplesPerBitPeriod * bit` are not modelled.
- The decoder's `infoBytes` and the framer's bytes are 32-bit patterns; the resampled sample values are `bv32`.
- `SbusDecoder.Decoder.GetFrameLoss`, `GetGoodFrames` and `GetDecoderErrorFrames` carry no contract of their own; what they return is stated by `FrameLossPercent` and the counter properties of `Decode`.
- Framer decisions follow the code as written (`clearsOnDesync` is false, the `== 1` test, channel index 2 read with `<<2`); the corrected forms are stated and proved beside them.

## Findings

| source | as written | input that shows it | evidently intended | confidence | as-written member | corrected member |
|---|---|---|---|---|---|---|
| tool.sbus/src/main/java/nl/lxtreme/ols/tool/sbus/SBUSDecoder.java:218 | channel index 2 ORs `infoBytes[4]<<2` | the frame `SbusDecoder.ThirdChannelWitness` (start byte, and only bit 7 of byte 4 set): payload group 0x100, expression 0x200 | `infoBytes[4]<<1`, as channel index 10 (line 226) has, so that channel 3 reads bits 22-32 of the payload | not executed | SbusDecoder.ThirdChannelMisread | SbusDecoder.CorrectedChannelLayout |
| tool.sbus/src/main/java/nl/lxtreme/ols/tool/sbus/SBUSAnalyserTask.java:282-286 | a desync resets byteNdx but keeps SBUSbytes | one byte read, a gap, then 25 windows in sync: setInfoBytes gets 26 bytes and throws | the bytes of a broken frame are dropped along with the count | not executed | SbusAnalyserTask.MismatchAfterDesync | SbusAnalyserTask.CorrectedFramerNeverMismatches |
| tool.sbus/src/main/java/nl/lxtreme/ols/tool/sbus/SBUSAnalyserTask.java:254 | a sample counts as high when `(values[idx] & dataMask) == 1` | data channel 1 with twelve high samples: the window reads 0 | `!= 0`, so that any data channel is read | not executed | SbusAnalyserTask.ChannelOneWindowMisread | SbusAnalyserTask.CorrectedWindowReadsLevels |
