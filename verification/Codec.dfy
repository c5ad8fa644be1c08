/** Column values and their JSON form in a dump. */
module Codec {
  import opened Basics

  datatype Json =
    | JNull
    | JBool(flag: bool)
    | JNumber(number: real)
    | JString(text: string)
    | JList(items: seq<Json>)
    | JDict(fields: map<string, Json>)

  /**
    The column types that a dump tells apart. `Plain` stands for all those whose values are JSON already
    (booleans, numbers, strings, enumerations, names, digests, JSONB), `Other` for those it cannot write.
   */
  datatype ColumnType = Plain | DateTime | Interval | Network | Array(item: ColumnType) | Other

  /** A value of a column. Moments (since the epoch) and spans are in microseconds. */
  datatype Value =
    | Null
    | PlainValue(json: Json)
    | Moment(micros: int)
    | Span(length: int)
    | NetworkValue(address: string)
    | ListValue(values: seq<Value>)
    | OtherValue

  predicate HasType(t: ColumnType, v: Value)
    decreases t
  {
    match v
    case Null => true
    case PlainValue(j) => t.Plain? && !j.JNull?
    case Moment(_) => t.DateTime?
    case Span(_) => t.Interval?
    case NetworkValue(_) => t.Network?
    case ListValue(values) => t.Array? && forall i | 0 <= i < |values| :: HasType(t.item, values[i])
    case OtherValue => t.Other?
  }

  // ---- Encoding ----------------------------------------------------------------------------------

  function Seconds(micros: int): real { micros as real / 1000000.0 }

  /** The error case is a value, or an item of it, of a type that a dump cannot hold. */
  function Encode(t: ColumnType, v: Value): Option<Json>
    requires HasType(t, v)
    decreases t, 0
  {
    match v
    case Null => Some(JNull)
    case PlainValue(j) => Some(j)
    case Moment(m) => Some(JNumber(Seconds(m)))
    case Span(m) => Some(JNumber(Seconds(m)))
    case NetworkValue(s) => Some(JString(s))
    case ListValue(values) =>
      var items := EncodeAll(t.item, values);
      if items.None? then None else Some(JList(items.value))
    case OtherValue => None
  }

  function EncodeAll(t: ColumnType, values: seq<Value>): (r: Option<seq<Json>>)
    requires forall i | 0 <= i < |values| :: HasType(t, values[i])
    ensures r.Some? ==> |r.value| == |values|
    decreases t, 1, |values|
  {
    if values == [] then Some([]) else
      var head, tail := Encode(t, values[0]), EncodeAll(t, values[1..]);
      if head.None? || tail.None? then None else Some([head.value] + tail.value)
  }

  /** A value that a dump can hold. */
  predicate Dumpable(v: Value) {
    match v
    case OtherValue => false
    case ListValue(values) => forall i | 0 <= i < |values| :: Dumpable(values[i])
    case _ => true
  }

  lemma {:induction false} EncodesIffDumpable(t: ColumnType, v: Value)
    requires HasType(t, v)
    ensures Encode(t, v).Some? <==> Dumpable(v)
    decreases t, 0
  {
    if v.ListValue? { EncodesAllIffDumpable(t.item, v.values); }
  }

  lemma {:induction false} EncodesAllIffDumpable(t: ColumnType, values: seq<Value>)
    requires forall i | 0 <= i < |values| :: HasType(t, values[i])
    ensures EncodeAll(t, values).Some? <==> forall i | 0 <= i < |values| :: Dumpable(values[i])
    decreases t, 1, |values|
  {
    if values != [] {
      EncodesIffDumpable(t, values[0]);
      EncodesAllIffDumpable(t, values[1..]);
      assert values == [values[0]] + values[1..];
    }
  }

  // ---- Decoding ----------------------------------------------------------------------------------

  /** The JSON values that a column of the type can be read from. */
  predicate Readable(t: ColumnType, j: Json)
    decreases t
  {
    j.JNull? ||
    match t
    case Plain => true
    case DateTime => j.JNumber?
    case Interval => j.JNumber?
    case Network => j.JString?
    case Array(item) => j.JList? && forall i | 0 <= i < |j.items| :: Readable(item, j.items[i])
    case Other => false
  }

  /** To the nearest, and to the even one of two. */
  function Rounded(x: real): int {
    var below := x.Floor;
    var part := x - below as real;
    if part < 0.5 || (part == 0.5 && below % 2 == 0) then below else below + 1
  }

  function Micros(seconds: real): int { Rounded(seconds * 1000000.0) }

  /** The first of January 2030. */
  const Fallback: int := 1893456000000000

  /** Dates after the `latest` that the system can represent are changed. */
  function Decode(latest: int, t: ColumnType, j: Json): Value
    requires Readable(t, j)
    decreases t, 0
  {
    if j.JNull? then Null else
      match t
      case Plain => PlainValue(j)
      case DateTime => if Micros(j.number) <= latest then Moment(Micros(j.number)) else Moment(Fallback)
      case Interval => Span(Micros(j.number))
      case Network => NetworkValue(j.text)
      case Array(item) => ListValue(DecodeAll(latest, item, j.items))
  }

  function DecodeAll(latest: int, t: ColumnType, items: seq<Json>): (r: seq<Value>)
    requires forall i | 0 <= i < |items| :: Readable(t, items[i])
    ensures |r| == |items|
    decreases t, 1, |items|
  {
    if items == [] then [] else [Decode(latest, t, items[0])] + DecodeAll(latest, t, items[1..])
  }

  lemma {:induction false} DecodedHasType(latest: int, t: ColumnType, j: Json)
    requires Readable(t, j)
    ensures HasType(t, Decode(latest, t, j))
    decreases t, 0
  {
    if t.Array? && j.JList? { DecodedAllHaveType(latest, t.item, j.items); }
  }

  lemma {:induction false} DecodedAllHaveType(latest: int, t: ColumnType, items: seq<Json>)
    requires forall i | 0 <= i < |items| :: Readable(t, items[i])
    ensures forall i | 0 <= i < |items| :: HasType(t, DecodeAll(latest, t, items)[i])
    decreases t, 1, |items|
  {
    if items != [] {
      DecodedHasType(latest, t, items[0]);
      DecodedAllHaveType(latest, t, items[1..]);
    }
  }

  // ---- Meaning -----------------------------------------------------------------------------------

  /** The JSON form of a value: times are in seconds, and lists item by item. */
  ghost predicate StandsFor(j: Json, v: Value) {
    match v
    case Null => j == JNull
    case PlainValue(p) => j == p
    case Moment(m) => j.JNumber? && j.number * 1000000.0 == m as real
    case Span(m) => j.JNumber? && j.number * 1000000.0 == m as real
    case NetworkValue(a) => j == JString(a)
    case ListValue(values) => j.JList? && |j.items| == |values| && forall i | 0 <= i < |values| :: StandsFor(j.items[i], values[i])
    case OtherValue => false
  }

  lemma {:induction false} EncodedStandsFor(t: ColumnType, v: Value)
    requires HasType(t, v) && Encode(t, v).Some?
    ensures StandsFor(Encode(t, v).value, v)
    decreases t, 0
  {
    if v.ListValue? { AllEncodedStandFor(t.item, v.values); }
  }

  lemma {:induction false} AllEncodedStandFor(t: ColumnType, values: seq<Value>)
    requires forall i | 0 <= i < |values| :: HasType(t, values[i])
    requires EncodeAll(t, values).Some?
    ensures forall i | 0 <= i < |values| :: StandsFor(EncodeAll(t, values).value[i], values[i])
    decreases t, 1, |values|
  {
    if values != [] {
      EncodedStandsFor(t, values[0]);
      AllEncodedStandFor(t, values[1..]);
    }
  }

  /** The number of microseconds is the nearest one, and the even one of two. */
  predicate IsNearest(micros: int, seconds: real) {
    var d := micros as real - seconds * 1000000.0;
    -0.5 <= d <= 0.5 && ((d == 0.5 || d == -0.5) ==> micros % 2 == 0)
  }

  lemma MicrosAreNearest(seconds: real)
    ensures IsNearest(Micros(seconds), seconds)
  {
  }

  /** The nearest microsecond if the system can represent it, and otherwise 21915 days after the epoch. */
  ghost predicate DateReadsAs(latest: int, seconds: real, micros: int) {
    exists m: int :: IsNearest(m, seconds) && micros == if m <= latest then m else 21915 * 24 * 60 * 60 * 1000000
  }

  /** What is read from JSON. */
  ghost predicate ReadsAs(latest: int, t: ColumnType, j: Json, v: Value)
    decreases t
  {
    if j == JNull then v == Null else
      match t
      case Plain => v == PlainValue(j)
      case DateTime => v.Moment? && j.JNumber? && DateReadsAs(latest, j.number, v.micros)
      case Interval => v.Span? && j.JNumber? && IsNearest(v.length, j.number)
      case Network => v.NetworkValue? && j == JString(v.address)
      case Array(item) => v.ListValue? && j.JList? && |v.values| == |j.items| &&
          forall i | 0 <= i < |j.items| :: ReadsAs(latest, item, j.items[i], v.values[i])
      case Other => false
  }

  lemma {:induction false} DecodedReadsAs(latest: int, t: ColumnType, j: Json)
    requires Readable(t, j)
    ensures ReadsAs(latest, t, j, Decode(latest, t, j))
    decreases t, 0
  {
    if j != JNull {
      match t
      case DateTime => MicrosAreNearest(j.number);
      case Interval => MicrosAreNearest(j.number);
      case Array(item) => AllDecodedReadAs(latest, item, j.items);
      case _ =>
    }
  }

  lemma {:induction false} AllDecodedReadAs(latest: int, t: ColumnType, items: seq<Json>)
    requires forall i | 0 <= i < |items| :: Readable(t, items[i])
    ensures forall i | 0 <= i < |items| :: ReadsAs(latest, t, items[i], DecodeAll(latest, t, items)[i])
    decreases t, 1, |items|
  {
    if items != [] {
      DecodedReadsAs(latest, t, items[0]);
      AllDecodedReadAs(latest, t, items[1..]);
    }
  }

  // ---- Round trip --------------------------------------------------------------------------------

  /** All the dates in it survive on a system whose dates end at `latest`. */
  predicate Fits(latest: int, v: Value) {
    match v
    case Moment(m) => m <= latest || m == Fallback
    case ListValue(values) => forall i | 0 <= i < |values| :: Fits(latest, values[i])
    case _ => true
  }

  lemma SecondsAreExact(m: int)
    ensures Micros(Seconds(m)) == m
  {
    assert Seconds(m) * 1000000.0 == m as real;
  }

  lemma {:induction false} EncodedIsReadable(t: ColumnType, v: Value)
    requires HasType(t, v) && Encode(t, v).Some?
    ensures Readable(t, Encode(t, v).value) && (Encode(t, v).value.JNull? <==> v.Null?)
    decreases t, 0
  {
    if v.ListValue? { AllEncodedAreReadable(t.item, v.values); }
  }

  lemma {:induction false} AllEncodedAreReadable(t: ColumnType, values: seq<Value>)
    requires forall i | 0 <= i < |values| :: HasType(t, values[i])
    requires EncodeAll(t, values).Some?
    ensures forall i | 0 <= i < |values| :: Readable(t, EncodeAll(t, values).value[i])
    decreases t, 1, |values|
  {
    if values != [] {
      EncodedIsReadable(t, values[0]);
      AllEncodedAreReadable(t, values[1..]);
    }
  }

  /** A value is read back as it was if and only if its dates fit the system that reads it. */
  lemma {:induction false} ValueRoundTrip(latest: int, t: ColumnType, v: Value)
    requires HasType(t, v) && Encode(t, v).Some?
    ensures Readable(t, Encode(t, v).value)
    ensures Decode(latest, t, Encode(t, v).value) == v <==> Fits(latest, v)
    decreases t, 0
  {
    EncodedIsReadable(t, v);
    match v
    case Moment(m) => SecondsAreExact(m);
    case Span(m) => SecondsAreExact(m);
    case ListValue(values) =>
      AllEncodedAreReadable(t.item, values);
      ListRoundTrip(latest, t.item, values);
    case _ =>
  }

  lemma {:induction false} ListRoundTrip(latest: int, t: ColumnType, values: seq<Value>)
    requires forall i | 0 <= i < |values| :: HasType(t, values[i])
    requires EncodeAll(t, values).Some?
    ensures forall i | 0 <= i < |values| :: Readable(t, EncodeAll(t, values).value[i])
    ensures DecodeAll(latest, t, EncodeAll(t, values).value) == values <==>
            forall i | 0 <= i < |values| :: Fits(latest, values[i])
    decreases t, 1, |values|
  {
    AllEncodedAreReadable(t, values);
    if values != [] {
      ValueRoundTrip(latest, t, values[0]);
      ListRoundTrip(latest, t, values[1..]);
      var items := EncodeAll(t, values).value;
      assert items[1..] == EncodeAll(t, values[1..]).value;
      assert values == [values[0]] + values[1..];
    }
  }
}
