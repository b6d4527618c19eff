/**
 * One entry of the decoded S.BUS result (SBUSData.java): either a 12-bit
 * window read by the framer ("DATA"), an 8-bit byte ("BYTE"), or an event
 * such as FRAME DECODED. The inherited BaseData part (index, channel index
 * and either an event at one sample or a start/end sample range) is held
 * in plain fields. Java's null strings are `None`.
 */
module SbusData {
  import opened Wrappers

  /** SBUSDataSet.SBUS_DATA: the name of a raw 12-bit window record. */
  const SbusDataName: string := "DATA"
  /** SBUSDataSet.SBUS_BYTE: the name of an 8-bit data byte record. */
  const SbusByteName: string := "BYTE"

  /** The samples a record covers, as BaseData keeps them. */
  datatype Span =
    | Event(sampleIdx: int, event: Option<string>)
    | Range(startSampleIdx: int, endSampleIdx: int)

  /** The fields of an SBUSData; the getters are the destructors. */
  datatype Record = Record(
    idx: int,
    channelIdx: int,
    span: Span,
    dataValue: int,
    dataName: Option<string>,
    frameIndex: int,
    byteIndex: int,
    dataString: Option<string>)

  /** SBUSData(aIdx, aChannelIdx, aEvent, aSampleIdx, aDataString): an event record. */
  function EventRecord(idx: int, channelIdx: int, event: Option<string>, sampleIdx: int, dataString: Option<string>): (r: Record)
    ensures r.idx == idx && r.channelIdx == channelIdx && r.span == Event(sampleIdx, event)
    ensures r.dataValue == 0 && r.dataName == None && r.frameIndex == -1 && r.byteIndex == -1
    ensures r.dataString == dataString
    ensures !IsData(r) && !IsSbusData(r) && !IsSbusByte(r)
  {
    Record(idx, channelIdx, Event(sampleIdx, event), 0, None, -1, -1, dataString)
  }

  /** SBUSData(aIdx, aChannelIdx, aDataName, aDataValue, aStart, aEnd, aFrameIdx, aByteIndex): a data record. */
  function DataRecord(idx: int, channelIdx: int, dataName: Option<string>, dataValue: int,
                      startSampleIdx: int, endSampleIdx: int, frameIndex: int, byteIndex: int): (r: Record)
    ensures r.idx == idx && r.channelIdx == channelIdx && r.span == Range(startSampleIdx, endSampleIdx)
    ensures r.dataName == dataName && r.dataValue == dataValue
    ensures r.frameIndex == frameIndex && r.byteIndex == byteIndex
    ensures r.dataString == None
  {
    Record(idx, channelIdx, Range(startSampleIdx, endSampleIdx), dataValue, dataName, frameIndex, byteIndex, None)
  }

  /** A character String.trim() removes from either end: any char up to and including the space. */
  predicate IsTrimmed(c: char) { c <= ' ' }

  /** String.trim(): drop leading and trailing characters <= ' '. */
  function Trim(s: string): (r: string)
    ensures |r| <= |s|
    ensures r == [] || (!IsTrimmed(r[0]) && !IsTrimmed(r[|r| - 1]))
    ensures forall i | 0 <= i < |s| :: !IsTrimmed(s[i]) ==> r != []
    decreases |s|
  {
    if |s| == 0 then s
    else if IsTrimmed(s[0]) then Trim(s[1..])
    else if IsTrimmed(s[|s| - 1]) then Trim(s[..|s| - 1])
    else s
  }

  /** trim() of a string is empty exactly when every character of it is removable. */
  lemma {:induction false} TrimEmptyIff(s: string)
    ensures Trim(s) == [] <==> forall i | 0 <= i < |s| :: IsTrimmed(s[i])
    decreases |s|
  {
    if |s| == 0 {
    } else if IsTrimmed(s[0]) {
      TrimEmptyIff(s[1..]);
      assert forall i | 1 <= i < |s| :: s[i] == s[1..][i - 1];
    } else if IsTrimmed(s[|s| - 1]) {
      TrimEmptyIff(s[..|s| - 1]);
    }
  }

  /** isData: the name is set and not blank. */
  predicate IsData(r: Record)
  {
    r.dataName.Some? && Trim(r.dataName.value) != []
  }

  /** isSbusData: the name is "DATA" (a null name never is). */
  predicate IsSbusData(r: Record)
  {
    r.dataName == Some(SbusDataName)
  }

  /** isSbusByte: the name is "BYTE". */
  predicate IsSbusByte(r: Record)
  {
    r.dataName == Some(SbusByteName)
  }

  /** isData holds exactly when a name is present with a character above the space. */
  lemma IsDataIff(r: Record)
    ensures IsData(r) <==> r.dataName.Some? && exists i | 0 <= i < |r.dataName.value| :: !IsTrimmed(r.dataName.value[i])
  {
    if r.dataName.Some? {
      TrimEmptyIff(r.dataName.value);
    }
  }

  /** No record is both a DATA and a BYTE record. */
  lemma SbusKindsExclusive(r: Record)
    ensures !(IsSbusData(r) && IsSbusByte(r))
  {
    assert SbusDataName[0] != SbusByteName[0];
  }

  /** Both record kinds the data set writes count as data. */
  lemma SbusKindsAreData(r: Record)
    ensures IsSbusData(r) || IsSbusByte(r) ==> IsData(r)
  {
    if IsSbusData(r) || IsSbusByte(r) {
      IsDataIff(r);
      assert !IsTrimmed(r.dataName.value[0]);
    }
  }
}
