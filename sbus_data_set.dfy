/**
 * The result list of an S.BUS analysis (SBUSDataSet.java): records are
 * appended one at a time, each taking the list's previous size as its
 * index, and the highest frame index reported so far is kept.
 */
module SbusDataSet {
  import opened Wrappers
  import opened SbusData

  /** Every record's index is its position in the list. */
  ghost predicate Indexed(records: seq<Record>)
  {
    forall i | 0 <= i < |records| :: records[i].idx == i
  }

  /** The running maximum of the frame indices, starting from 0. */
  function MaxFrame(records: seq<Record>): (m: int)
    ensures m >= 0
  {
    if |records| == 0 then 0
    else
      var m := MaxFrame(records[..|records| - 1]);
      var f := records[|records| - 1].frameIndex;
      if f > m then f else m
  }

  /** MaxFrame bounds every frame index and is 0 or one of them. */
  lemma {:induction false} MaxFrameIsMaximum(records: seq<Record>)
    ensures forall i | 0 <= i < |records| :: records[i].frameIndex <= MaxFrame(records)
    ensures MaxFrame(records) == 0 || exists i | 0 <= i < |records| :: records[i].frameIndex == MaxFrame(records)
  {
    if |records| > 0 {
      var init := records[..|records| - 1];
      MaxFrameIsMaximum(init);
      assert forall i | 0 <= i < |init| :: records[i] == init[i];
    }
  }

  lemma MaxFrameAppend(records: seq<Record>, r: Record)
    ensures MaxFrame(records + [r]) == if r.frameIndex > MaxFrame(records) then r.frameIndex else MaxFrame(records)
  {
    assert (records + [r])[..|records|] == records;
  }

  class DataSet {
    const startOfDecode: int
    const endOfDecode: int
    /** The sample rate of the acquisition the data set was made from. */
    const sampleRate: int
    var records: seq<Record>
    var frameCount: int

    ghost predicate Valid()
      reads this
    {
      Indexed(records) && frameCount == MaxFrame(records)
    }

    /** SBUSDataSet(start, end, data): no records, frame count 0. */
    constructor (start: int, end: int, rate: int)
      ensures Valid()
      ensures startOfDecode == start && endOfDecode == end && sampleRate == rate
      ensures records == [] && frameCount == 0
    {
      startOfDecode, endOfDecode, sampleRate := start, end, rate;
      records := [];
      frameCount := 0;
    }

    /** reportSBUSData: append a DATA record with byte index -1; raise the frame count to aFrameIndex. */
    method ReportSbusData(channelIdx: int, startIdx: int, endIdx: int, dataValue: int, frameIndex: int)
      requires Valid()
      modifies this
      ensures Valid()
      ensures records == old(records) + [DataRecord(|old(records)|, channelIdx, Some(SbusDataName), dataValue, startIdx, endIdx, frameIndex, -1)]
      ensures frameCount == if frameIndex > old(frameCount) then frameIndex else old(frameCount)
    {
      var idx := |records|;
      MaxFrameAppend(records, DataRecord(idx, channelIdx, Some(SbusDataName), dataValue, startIdx, endIdx, frameIndex, -1));
      records := records + [DataRecord(idx, channelIdx, Some(SbusDataName), dataValue, startIdx, endIdx, frameIndex, -1)];
      if frameIndex > frameCount {
        frameCount := frameIndex;
      }
    }

    /** reportSBUSByte: append a BYTE record; raise the frame count to aFrameIndex. */
    method ReportSbusByte(channelIdx: int, startIdx: int, endIdx: int, dataValue: int, frameIndex: int, byteIndex: int)
      requires Valid()
      modifies this
      ensures Valid()
      ensures records == old(records) + [DataRecord(|old(records)|, channelIdx, Some(SbusByteName), dataValue, startIdx, endIdx, frameIndex, byteIndex)]
      ensures frameCount == if frameIndex > old(frameCount) then frameIndex else old(frameCount)
    {
      var idx := |records|;
      MaxFrameAppend(records, DataRecord(idx, channelIdx, Some(SbusByteName), dataValue, startIdx, endIdx, frameIndex, byteIndex));
      records := records + [DataRecord(idx, channelIdx, Some(SbusByteName), dataValue, startIdx, endIdx, frameIndex, byteIndex)];
      if frameIndex > frameCount {
        frameCount := frameIndex;
      }
    }

    /** reportEvent: append an event record; its first argument is not used and the frame count stays. */
    method ReportEvent(unusedIdx: int, channelIdx: int, event: Option<string>, sampleIdx: int, message: Option<string>)
      requires Valid()
      modifies this
      ensures Valid()
      ensures records == old(records) + [EventRecord(|old(records)|, channelIdx, event, sampleIdx, message)]
      ensures frameCount == old(frameCount)
    {
      var idx := |records|;
      MaxFrameAppend(records, EventRecord(idx, channelIdx, event, sampleIdx, message));
      records := records + [EventRecord(idx, channelIdx, event, sampleIdx, message)];
    }

    /** getFrameCount: never negative, at least every reported frame index, and reached by one unless 0. */
    function GetFrameCount(): (n: int)
      reads this
      requires Valid()
      ensures n >= 0
      ensures forall i | 0 <= i < |records| :: records[i].frameIndex <= n
      ensures n == 0 || exists i | 0 <= i < |records| :: records[i].frameIndex == n
    {
      MaxFrameIsMaximum(records);
      frameCount
    }

    /** BaseDataSet.size(). */
    function Size(): (n: nat)
      reads this
      requires Valid()
      ensures n == |records| && forall i | 0 <= i < n :: records[i].idx == i
    {
      |records|
    }
  }
}
