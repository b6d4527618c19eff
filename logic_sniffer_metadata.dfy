/**
 * The metadata a SUMP logic sniffer reports about itself
 * (LogicSnifferMetadata.java): an integer-keyed map that refuses to bind a
 * key twice, read through typed getters.
 */
module LogicSnifferMetadata {
  import opened Wrappers

  // The keys come from the DeviceMetadata interface, which is not part of
  // this model; these are the SUMP metadata tokens, and the model relies only on
  // their being distinct.
  const KeyDeviceName: int := 0x01
  const KeyFpgaVersion: int := 0x02
  const KeyAncillaryVersion: int := 0x03
  const KeyProbeCountLong: int := 0x20
  const KeySampleMemoryDepth: int := 0x21
  const KeyDynamicMemoryDepth: int := 0x22
  const KeyMaxSampleRate: int := 0x23
  const KeyProtocolVersionLong: int := 0x24
  const KeyProbeCountShort: int := 0x40
  const KeyProtocolVersionShort: int := 0x41

  /** A stored value: a String, an Integer, a Byte, or null. */
  datatype Value = Text(text: string) | Integer(number: int) | Byte(octet: int) | Null

  /** Map.get: the bound value, or None for an unbound key or a null value. */
  function Lookup(m: map<int, Value>, key: int): (r: Option<Value>)
    ensures r.None? <==> key !in m || m[key] == Null
    ensures r.Some? ==> r.value == m[key] && r.value != Null
  {
    if key in m && m[key] != Null then Some(m[key]) else None
  }

  /** The (String) cast: null stays null, a non-String throws ClassCastException. */
  function AsText(v: Option<Value>): (r: Result<Option<string>>)
    ensures r == Ok(None) <==> v.None?
    ensures r.Err? <==> v.Some? && !v.value.Text?
    ensures r.Err? ==> r.error == ClassCast
    ensures r.Ok? && r.value.Some? ==> v == Some(Text(r.value.value))
  {
    match v
    case None => Ok(None)
    case Some(Text(s)) => Ok(Some(s))
    case Some(_) => Err(ClassCast)
  }

  /** The (Integer) cast: null stays null, a String or a Byte throws ClassCastException. */
  function AsInteger(v: Option<Value>): (r: Result<Option<int>>)
    ensures r == Ok(None) <==> v.None?
    ensures r.Err? <==> v.Some? && !v.value.Integer?
    ensures r.Err? ==> r.error == ClassCast
    ensures r.Ok? && r.value.Some? ==> v == Some(Integer(r.value.value))
  {
    match v
    case None => Ok(None)
    case Some(Integer(n)) => Ok(Some(n))
    case Some(_) => Err(ClassCast)
  }

  /** What a (String) getter of key must return for map m. */
  predicate TextAt(m: map<int, Value>, key: int, r: Result<Option<string>>)
  {
    (r == Ok(None) <==> key !in m || m[key] == Null) &&
    (key in m && m[key].Text? ==> r == Ok(Some(m[key].text))) &&
    (r.Err? <==> key in m && m[key] != Null && !m[key].Text?) &&
    (r.Err? ==> r.error == ClassCast)
  }

  /** What an (Integer) getter of key must return for map m. */
  predicate IntegerAt(m: map<int, Value>, key: int, r: Result<Option<int>>)
  {
    (r == Ok(None) <==> key !in m || m[key] == Null) &&
    (key in m && m[key].Integer? ==> r == Ok(Some(m[key].number))) &&
    (r.Err? <==> key in m && m[key] != Null && !m[key].Integer?) &&
    (r.Err? ==> r.error == ClassCast)
  }

  /** Binding a new key changes no other lookup, and the key then reads its value unless that is null. */
  lemma LookupAfterInsert(m: map<int, Value>, key: int, v: Value, other: int)
    requires key !in m
    ensures Lookup(m[key := v], key) == (if v == Null then None else Some(v))
    ensures other != key ==> Lookup(m[key := v], other) == Lookup(m, other)
  {}

  /** The long key wins whenever it holds a non-null value; the short key is read otherwise. */
  function WithFallback(m: map<int, Value>, long: int, short: int): (r: Option<Value>)
    ensures Lookup(m, long).Some? ==> r == Lookup(m, long)
    ensures Lookup(m, long).None? ==> r == Lookup(m, short)
  {
    var result := Lookup(m, long);
    if result.None? then Lookup(m, short) else result
  }

  /** The int-returning overloads: the default exactly when the lookup gave null. */
  function OrDefault(r: Result<Option<int>>, default: int): (x: Result<int>)
    ensures x.Err? <==> r.Err?
    ensures r == Ok(None) ==> x == Ok(default)
    ensures r.Ok? && r.value.Some? ==> x == Ok(r.value.value)
  {
    match r
    case Err(e) => Err(e)
    case Ok(None) => Ok(default)
    case Ok(Some(n)) => Ok(n)
  }

  class Metadata {
    var values: map<int, Value>

    /** A new instance holds no bindings. */
    constructor ()
      ensures values == map[]
    {
      values := map[];
    }

    /** put: IllegalStateException for a key already bound (even to null); otherwise bind it. */
    method Put(key: int, value: Value) returns (outcome: Outcome)
      modifies this
      ensures key in old(values) ==> outcome == Fail(IllegalState) && values == old(values)
      ensures key !in old(values) ==> outcome == Pass && values == old(values)[key := value]
    {
      if key in values {
        return Fail(IllegalState);
      }
      values := values[key := value];
      return Pass;
    }

    function GetAncillaryVersion(): (r: Result<Option<string>>)
      reads this
      ensures TextAt(values, KeyAncillaryVersion, r)
    {
      AsText(Lookup(values, KeyAncillaryVersion))
    }

    function GetDynamicMemoryDepth(): (r: Result<Option<int>>)
      reads this
      ensures IntegerAt(values, KeyDynamicMemoryDepth, r)
    {
      AsInteger(Lookup(values, KeyDynamicMemoryDepth))
    }

    function GetFpgaVersion(): (r: Result<Option<string>>)
      reads this
      ensures TextAt(values, KeyFpgaVersion, r)
    {
      AsText(Lookup(values, KeyFpgaVersion))
    }

    function GetMaxSampleRate(): (r: Result<Option<int>>)
      reads this
      ensures IntegerAt(values, KeyMaxSampleRate, r)
    {
      AsInteger(Lookup(values, KeyMaxSampleRate))
    }

    function GetName(): (r: Result<Option<string>>)
      reads this
      ensures TextAt(values, KeyDeviceName, r)
    {
      AsText(Lookup(values, KeyDeviceName))
    }

    /** getProbeCount(): the long key's value if it is bound and not null, else the short key's. */
    function GetProbeCount(): (r: Result<Option<int>>)
      reads this
      ensures Lookup(values, KeyProbeCountLong).Some? ==> IntegerAt(values, KeyProbeCountLong, r)
      ensures Lookup(values, KeyProbeCountLong).None? ==> IntegerAt(values, KeyProbeCountShort, r)
      ensures r == Ok(None) <==> Lookup(values, KeyProbeCountLong).None? && Lookup(values, KeyProbeCountShort).None?
    {
      AsInteger(WithFallback(values, KeyProbeCountLong, KeyProbeCountShort))
    }

    function GetProbeCountOr(default: int): (r: Result<int>)
      reads this
      ensures GetProbeCount() == Ok(None) ==> r == Ok(default)
      ensures GetProbeCount().Ok? && GetProbeCount().value.Some? ==> r == Ok(GetProbeCount().value.value)
      ensures r.Err? <==> GetProbeCount().Err?
    {
      OrDefault(GetProbeCount(), default)
    }

    /** getProtocolVersion(): the same long-then-short fallback as getProbeCount(). */
    function GetProtocolVersion(): (r: Result<Option<int>>)
      reads this
      ensures Lookup(values, KeyProtocolVersionLong).Some? ==> IntegerAt(values, KeyProtocolVersionLong, r)
      ensures Lookup(values, KeyProtocolVersionLong).None? ==> IntegerAt(values, KeyProtocolVersionShort, r)
      ensures r == Ok(None) <==> Lookup(values, KeyProtocolVersionLong).None? && Lookup(values, KeyProtocolVersionShort).None?
    {
      AsInteger(WithFallback(values, KeyProtocolVersionLong, KeyProtocolVersionShort))
    }

    function GetSampleMemoryDepth(): (r: Result<Option<int>>)
      reads this
      ensures IntegerAt(values, KeySampleMemoryDepth, r)
    {
      AsInteger(Lookup(values, KeySampleMemoryDepth))
    }

    function GetSampleMemoryDepthOr(default: int): (r: Result<int>)
      reads this
      ensures GetSampleMemoryDepth() == Ok(None) ==> r == Ok(default)
      ensures GetSampleMemoryDepth().Ok? && GetSampleMemoryDepth().value.Some? ==> r == Ok(GetSampleMemoryDepth().value.value)
      ensures r.Err? <==> GetSampleMemoryDepth().Err?
    {
      OrDefault(GetSampleMemoryDepth(), default)
    }
  }

  /** A lookup of a key bound to null falls back just as an unbound one does. */
  lemma NullLongKeyFallsBack(m: map<int, Value>)
    requires KeyProbeCountLong in m && m[KeyProbeCountLong] == Null
    ensures WithFallback(m, KeyProbeCountLong, KeyProbeCountShort) == Lookup(m, KeyProbeCountShort)
  {}
}
