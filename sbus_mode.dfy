/**
 * The S.BUS analysis modes (SBUSMode.java) and their labels and clock edges.
 */
module SbusMode {
  import opened Wrappers

  datatype Mode = Autodetect | LowSpeed | HighSpeed

  /**
   * The two directional values of the API's Edge enumeration; Edge itself is
   * not part of this model, only that invert() swaps rising and falling.
   */
  datatype Edge = Rising | Falling

  function Invert(e: Edge): (r: Edge)
    ensures r != e
  {
    if e == Rising then Falling else Rising
  }

  lemma InvertInvolutive(e: Edge)
    ensures Invert(Invert(e)) == e
  {}

  /** SBUSMode.values(), in declaration order. */
  const Values: seq<Mode> := [Autodetect, LowSpeed, HighSpeed]

  /** ordinal(): the position of a mode in Values. */
  function Ordinal(m: Mode): (n: nat)
    ensures n < |Values| && Values[n] == m
  {
    match m
    case Autodetect => 0
    case LowSpeed => 1
    case HighSpeed => 2
  }

  /** There are exactly three modes, each listed once. */
  lemma ValuesComplete()
    ensures |Values| == 3
    ensures forall m: Mode :: m in Values
    ensures forall i, j | 0 <= i < j < |Values| :: Values[i] != Values[j]
  {
    forall m: Mode ensures m in Values {
      assert Values[Ordinal(m)] == m;
    }
  }

  /** getModeString(mode); a null mode (None) falls through to "High Speed". */
  function ModeString(mode: Option<Mode>): (s: string)
    ensures s == "Unknown" <==> mode == Some(Autodetect)
    ensures s == "Low Speed" <==> mode == Some(LowSpeed)
    ensures s == "High Speed" <==> mode != Some(Autodetect) && mode != Some(LowSpeed)
  {
    if mode == Some(Autodetect) then "Unknown"
    else if mode == Some(LowSpeed) then "Low Speed"
    else "High Speed"
  }

  /** getSampleEdge(): data are sampled on the rising edge in every mode. */
  function SampleEdge(m: Mode): (e: Edge)
    ensures e == Rising
  {
    Rising
  }

  /** getDataChangeEdge(): the data line changes on the other edge. */
  function DataChangeEdge(m: Mode): (e: Edge)
    ensures e == Falling && e != SampleEdge(m)
    ensures Invert(e) == SampleEdge(m)
  {
    Invert(SampleEdge(m))
  }
}
