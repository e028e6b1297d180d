/**
 * The records of the D-Bus transport and how they travel in a
 * `QDBusArgument`.
 *
 * An argument is modelled as the sequence of values written into it, with
 * explicit markers where a structure or an array begins and ends. `<<` is the
 * sequence a record appends; `>>` reads a record from the front of a sequence
 * and hands back what follows. A vector's `>>` appends the elements it reads
 * to the vector it is given, until the array is at its end.
 */
module DBusTypes {
  import opened Bytes
  import opened Loader
  import opened Wrappers

  /** One value in a D-Bus argument. */
  datatype Item =
    | BeginStructure | EndStructure
    | BeginArray | EndArray
    | Boolean(b: bool)
    | Int32(i: int32)
    | Double(d: f64)
    | String(s: Text)

  datatype Datapoint = Datapoint(x: f64, y: f64)

  /** `Data`, with its fields in the order the class declares them. */
  datatype Data = Data(
    path: Text, dataId: Text, name: Text,
    xDescription: Text, yDescription: Text, xUnit: Text, yUnit: Text,
    datapoints: seq<Datapoint>)

  datatype DataPack = DataPack(success: bool, error: Text, data: seq<Data>)

  datatype SupportedFileFormat = SupportedFileFormat(
    longDescription: Text, shortDescription: Text, tag: Text, loadOptions: seq<Text>)

  datatype ABIVersion = ABIVersion(major: int32, minor: int32)

  /** "Empty response", the error text of a default pack. */
  const EMPTY_RESPONSE: Text := [0x45, 0x6D, 0x70, 0x74, 0x79, 0x20, 0x72, 0x65, 0x73, 0x70, 0x6F, 0x6E, 0x73, 0x65]

  /** A default-constructed `DataPack`. */
  const DEFAULT_DATA_PACK := DataPack(false, EMPTY_RESPONSE, [])

  /** A default-constructed `SupportedFileFormat`. */
  const EMPTY_FORMAT := SupportedFileFormat([], [], [], [])

  // ------------------------------------------------------------ operator<<

  /** The elements of a vector, one after the other. */
  function Elements<T>(xs: seq<T>, m: T -> seq<Item>): seq<Item>
  {
    if |xs| == 0 then [] else m(xs[0]) + Elements(xs[1..], m)
  }

  /** A vector inside `beginArray` / `endArray`. */
  function MarshalArray<T>(xs: seq<T>, m: T -> seq<Item>): seq<Item>
  {
    [BeginArray] + Elements(xs, m) + [EndArray]
  }

  function MarshalString(s: Text): seq<Item>
  {
    [String(s)]
  }

  function MarshalDatapoint(p: Datapoint): seq<Item>
  {
    [BeginStructure, Double(p.x), Double(p.y), EndStructure]
  }

  function MarshalData(d: Data): seq<Item>
  {
    [BeginStructure, String(d.path), String(d.dataId), String(d.name),
     String(d.xDescription), String(d.yDescription), String(d.xUnit), String(d.yUnit)]
    + MarshalArray(d.datapoints, MarshalDatapoint) + [EndStructure]
  }

  function MarshalDataPack(p: DataPack): seq<Item>
  {
    [BeginStructure, Boolean(p.success), String(p.error)]
    + MarshalArray(p.data, MarshalData) + [EndStructure]
  }

  function MarshalFormat(f: SupportedFileFormat): seq<Item>
  {
    [BeginStructure, String(f.longDescription), String(f.shortDescription), String(f.tag)]
    + MarshalArray(f.loadOptions, MarshalString) + [EndStructure]
  }

  function MarshalABIVersion(v: ABIVersion): seq<Item>
  {
    [BeginStructure, Int32(v.major), Int32(v.minor), EndStructure]
  }

  // ------------------------------------------------------------ operator>>

  /** A value read from the front of an argument, and what follows it. */
  datatype Decoded<T> = Decoded(value: T, rest: seq<Item>)

  /** An element reader that always consumes something when it succeeds. */
  ghost predicate Consumes<T>(u: seq<Item> -> Option<Decoded<T>>)
  {
    forall s :: u(s).Some? ==> |u(s).value.rest| < |s|
  }

  /** `while (!atEnd()) { read an element; vec.append(it); }` on a well-formed argument. */
  function UnmarshalElements<T>(s: seq<Item>, vec: seq<T>, u: seq<Item> -> Option<Decoded<T>>): (r: Option<Decoded<seq<T>>>)
    requires Consumes(u)
    decreases |s|
    ensures r.Some? ==> |r.value.rest| <= |s|
  {
    if |s| == 0 || s[0] == EndArray then Some(Decoded(vec, s))
    else match u(s)
      case None => None
      case Some(e) => UnmarshalElements(e.rest, vec + [e.value], u)
  }

  /** A vector's `>>`: the elements of the array are appended to `vec`. */
  function UnmarshalArray<T>(s: seq<Item>, vec: seq<T>, u: seq<Item> -> Option<Decoded<T>>): (r: Option<Decoded<seq<T>>>)
    requires Consumes(u)
    ensures r.Some? ==> |r.value.rest| < |s|
  {
    if |s| == 0 || s[0] != BeginArray then None
    else match UnmarshalElements(s[1..], vec, u)
      case None => None
      case Some(e) =>
        if |e.rest| > 0 && e.rest[0] == EndArray then Some(Decoded(e.value, e.rest[1..])) else None
  }

  function UnmarshalString(s: seq<Item>): (r: Option<Decoded<Text>>)
    ensures r.Some? ==> |r.value.rest| < |s|
  {
    if |s| > 0 && s[0].String? then Some(Decoded(s[0].s, s[1..])) else None
  }

  function UnmarshalDatapoint(s: seq<Item>): (r: Option<Decoded<Datapoint>>)
    ensures r.Some? ==> |r.value.rest| < |s|
  {
    if |s| >= 4 && s[0] == BeginStructure && s[1].Double? && s[2].Double? && s[3] == EndStructure
    then Some(Decoded(Datapoint(s[1].d, s[2].d), s[4..]))
    else None
  }

  /** `Data >>` into a fresh `Data`. */
  function UnmarshalData(s: seq<Item>): (r: Option<Decoded<Data>>)
    ensures r.Some? ==> |r.value.rest| < |s|
  {
    if |s| >= 8 && s[0] == BeginStructure && s[1].String? && s[2].String? && s[3].String?
       && s[4].String? && s[5].String? && s[6].String? && s[7].String? then
      match UnmarshalArray(s[8..], [], UnmarshalDatapoint)
      case None => None
      case Some(a) =>
        if |a.rest| > 0 && a.rest[0] == EndStructure then
          Some(Decoded(Data(s[1].s, s[2].s, s[3].s, s[4].s, s[5].s, s[6].s, s[7].s, a.value), a.rest[1..]))
        else None
    else None
  }

  /** `DataPack >>` into `pack`: success and error are overwritten, the datasets appended. */
  function UnmarshalDataPack(s: seq<Item>, pack: DataPack): (r: Option<Decoded<DataPack>>)
  {
    if |s| >= 3 && s[0] == BeginStructure && s[1].Boolean? && s[2].String? then
      match UnmarshalArray(s[3..], pack.data, UnmarshalData)
      case None => None
      case Some(a) =>
        if |a.rest| > 0 && a.rest[0] == EndStructure then
          Some(Decoded(DataPack(s[1].b, s[2].s, a.value), a.rest[1..]))
        else None
    else None
  }

  /** `SupportedFileFormat >>` into `f`: the descriptions and tag are overwritten, the options appended. */
  function UnmarshalFormat(s: seq<Item>, f: SupportedFileFormat): (r: Option<Decoded<SupportedFileFormat>>)
    ensures r.Some? ==> |r.value.rest| < |s|
  {
    if |s| >= 4 && s[0] == BeginStructure && s[1].String? && s[2].String? && s[3].String? then
      match UnmarshalArray(s[4..], f.loadOptions, UnmarshalString)
      case None => None
      case Some(a) =>
        if |a.rest| > 0 && a.rest[0] == EndStructure then
          Some(Decoded(SupportedFileFormat(s[1].s, s[2].s, s[3].s, a.value), a.rest[1..]))
        else None
    else None
  }

  /** The element reader of `SupportedFileFormatVec >>`, which reads into a fresh record. */
  function UnmarshalFreshFormat(s: seq<Item>): (r: Option<Decoded<SupportedFileFormat>>)
    ensures r.Some? ==> |r.value.rest| < |s|
  {
    UnmarshalFormat(s, EMPTY_FORMAT)
  }

  function UnmarshalABIVersion(s: seq<Item>): (r: Option<Decoded<ABIVersion>>)
  {
    if |s| >= 4 && s[0] == BeginStructure && s[1].Int32? && s[2].Int32? && s[3] == EndStructure
    then Some(Decoded(ABIVersion(s[1].i, s[2].i), s[4..]))
    else None
  }

  /**
   * The loop of a vector's `>>`: read elements and append them to `vec`
   * until the argument is at the end of the array.
   */
  method ReadElements<T>(s: seq<Item>, vec: seq<T>, u: seq<Item> -> Option<Decoded<T>>)
    returns (r: Option<Decoded<seq<T>>>)
    requires Consumes(u)
    ensures r == UnmarshalElements(s, vec, u)
  {
    var rest, acc := s, vec;
    while |rest| > 0 && rest[0] != EndArray
      invariant UnmarshalElements(rest, acc, u) == UnmarshalElements(s, vec, u)
      decreases |rest|
    {
      var e := u(rest);
      if e.None? {
        return None;
      }
      rest, acc := e.value.rest, acc + [e.value.value];
    }
    return Some(Decoded(acc, rest));
  }

  // ------------------------------------------------------------ round trips

  lemma ConsumesAll()
    ensures Consumes(UnmarshalString) && Consumes(UnmarshalDatapoint)
    ensures Consumes(UnmarshalData) && Consumes(UnmarshalFreshFormat)
  {
  }

  /** Elements read back by a reader that undoes the writer, and that never begins with `EndArray`. */
  lemma {:induction false} ElementsRoundTrip<T>(xs: seq<T>, vec: seq<T>, m: T -> seq<Item>,
                                                u: seq<Item> -> Option<Decoded<T>>, rest: seq<Item>)
    requires Consumes(u)
    requires forall x, tail :: u(m(x) + tail) == Some(Decoded(x, tail))
    requires forall x :: |m(x)| > 0 && m(x)[0] != EndArray
    requires |rest| > 0 && rest[0] == EndArray
    ensures UnmarshalElements(Elements(xs, m) + rest, vec, u) == Some(Decoded(vec + xs, rest))
  {
    if |xs| == 0 {
      assert Elements(xs, m) + rest == rest;
      assert vec + xs == vec;
    } else {
      var tail := Elements(xs[1..], m) + rest;
      assert Elements(xs, m) + rest == m(xs[0]) + tail;
      assert (m(xs[0]) + tail)[0] == m(xs[0])[0];
      ElementsRoundTrip(xs[1..], vec + [xs[0]], m, u, rest);
      assert vec + [xs[0]] + xs[1..] == vec + xs;
    }
  }

  /** A vector read back after being written gives `vec` followed by the vector. */
  lemma ArrayRoundTrip<T>(xs: seq<T>, vec: seq<T>, m: T -> seq<Item>,
                          u: seq<Item> -> Option<Decoded<T>>, rest: seq<Item>)
    requires Consumes(u)
    requires forall x, tail :: u(m(x) + tail) == Some(Decoded(x, tail))
    requires forall x :: |m(x)| > 0 && m(x)[0] != EndArray
    ensures UnmarshalArray(MarshalArray(xs, m) + rest, vec, u) == Some(Decoded(vec + xs, rest))
  {
    var s := MarshalArray(xs, m) + rest;
    assert s == [BeginArray] + (Elements(xs, m) + ([EndArray] + rest));
    assert s[1..] == Elements(xs, m) + ([EndArray] + rest);
    ElementsRoundTrip(xs, vec, m, u, [EndArray] + rest);
  }

  lemma StringRoundTrip()
    ensures forall x, tail :: UnmarshalString(MarshalString(x) + tail) == Some(Decoded(x, tail))
  {
    forall x, tail ensures UnmarshalString(MarshalString(x) + tail) == Some(Decoded(x, tail)) {
      assert (MarshalString(x) + tail)[1..] == tail;
    }
  }

  /** `Datapoint` is written x then y and read back in the same order. */
  lemma DatapointRoundTrip()
    ensures forall p, tail :: UnmarshalDatapoint(MarshalDatapoint(p) + tail) == Some(Decoded(p, tail))
  {
    forall p, tail ensures UnmarshalDatapoint(MarshalDatapoint(p) + tail) == Some(Decoded(p, tail)) {
      assert (MarshalDatapoint(p) + tail)[4..] == tail;
    }
  }

  /** `Data` is read back field by field in the order it was written. */
  lemma DataRoundTrip(d: Data, tail: seq<Item>)
    ensures UnmarshalData(MarshalData(d) + tail) == Some(Decoded(d, tail))
  {
    var s := MarshalData(d) + tail;
    var arr := MarshalArray(d.datapoints, MarshalDatapoint);
    var head := [BeginStructure, String(d.path), String(d.dataId), String(d.name),
                 String(d.xDescription), String(d.yDescription), String(d.xUnit), String(d.yUnit)];
    assert s == head + (arr + ([EndStructure] + tail));
    assert s[8..] == arr + ([EndStructure] + tail);
    assert UnmarshalArray(s[8..], [], UnmarshalDatapoint) == Some(Decoded(d.datapoints, [EndStructure] + tail)) by {
      DatapointRoundTrip();
      ArrayRoundTrip(d.datapoints, [], MarshalDatapoint, UnmarshalDatapoint, [EndStructure] + tail);
      assert [] + d.datapoints == d.datapoints;
    }
  }

  lemma DataRoundTripAll()
    ensures forall d, tail :: UnmarshalData(MarshalData(d) + tail) == Some(Decoded(d, tail))
  {
    forall d, tail ensures UnmarshalData(MarshalData(d) + tail) == Some(Decoded(d, tail)) {
      DataRoundTrip(d, tail);
    }
  }

  /**
   * A pack read back into `into` carries the written success flag and error,
   * and the written datasets after those `into` already held.
   */
  lemma DataPackRoundTrip(p: DataPack, into: DataPack, tail: seq<Item>)
    ensures UnmarshalDataPack(MarshalDataPack(p) + tail, into)
      == Some(Decoded(p.(data := into.data + p.data), tail))
    ensures into.data == [] ==> p.(data := into.data + p.data) == p
  {
    var arr := MarshalArray(p.data, MarshalData);
    var s := MarshalDataPack(p) + tail;
    assert s == [BeginStructure, Boolean(p.success), String(p.error)] + (arr + ([EndStructure] + tail));
    assert s[3..] == arr + ([EndStructure] + tail);
    assert UnmarshalArray(s[3..], into.data, UnmarshalData) == Some(Decoded(into.data + p.data, [EndStructure] + tail)) by {
      DataRoundTripAll();
      ArrayRoundTrip(p.data, into.data, MarshalData, UnmarshalData, [EndStructure] + tail);
    }
  }

  /** Read into a default pack, a written pack comes back unchanged. */
  lemma DataPackIdentity(p: DataPack)
    ensures UnmarshalDataPack(MarshalDataPack(p), DEFAULT_DATA_PACK) == Some(Decoded(p, []))
  {
    DataPackRoundTrip(p, DEFAULT_DATA_PACK, []);
    assert MarshalDataPack(p) + [] == MarshalDataPack(p);
  }

  /**
   * A format read back into `into` carries the written descriptions and tag,
   * and the written options after those `into` already held.
   */
  lemma FormatRoundTrip(f: SupportedFileFormat, into: SupportedFileFormat, tail: seq<Item>)
    ensures UnmarshalFormat(MarshalFormat(f) + tail, into)
      == Some(Decoded(f.(loadOptions := into.loadOptions + f.loadOptions), tail))
  {
    var s := MarshalFormat(f) + tail;
    assert s[4..] == MarshalArray(f.loadOptions, MarshalString) + ([EndStructure] + tail);
    StringRoundTrip();
    ArrayRoundTrip(f.loadOptions, into.loadOptions, MarshalString, UnmarshalString, [EndStructure] + tail);
  }

  lemma FreshFormatRoundTrip()
    ensures forall f, tail :: UnmarshalFreshFormat(MarshalFormat(f) + tail) == Some(Decoded(f, tail))
  {
    forall f, tail ensures UnmarshalFreshFormat(MarshalFormat(f) + tail) == Some(Decoded(f, tail)) {
      FormatRoundTrip(f, EMPTY_FORMAT, tail);
      assert [] + f.loadOptions == f.loadOptions;
    }
  }

  /** `DataVec >>` appends the written datasets, in order, to the vector it reads into. */
  lemma DataVecRoundTrip(ds: seq<Data>, vec: seq<Data>)
    ensures UnmarshalArray(MarshalArray(ds, MarshalData), vec, UnmarshalData) == Some(Decoded(vec + ds, []))
  {
    DataRoundTripAll();
    ArrayRoundTrip(ds, vec, MarshalData, UnmarshalData, []);
    assert MarshalArray(ds, MarshalData) + [] == MarshalArray(ds, MarshalData);
  }

  /** `SupportedFileFormatVec >>` appends the written formats, in order, to the vector it reads into. */
  lemma FormatVecRoundTrip(fs: seq<SupportedFileFormat>, vec: seq<SupportedFileFormat>)
    ensures UnmarshalArray(MarshalArray(fs, MarshalFormat), vec, UnmarshalFreshFormat) == Some(Decoded(vec + fs, []))
  {
    FreshFormatRoundTrip();
    ArrayRoundTrip(fs, vec, MarshalFormat, UnmarshalFreshFormat, []);
    assert MarshalArray(fs, MarshalFormat) + [] == MarshalArray(fs, MarshalFormat);
  }

  /** `ABIVersion` is written major then minor and read back in the same order. */
  lemma ABIVersionRoundTrip(v: ABIVersion, tail: seq<Item>)
    ensures UnmarshalABIVersion(MarshalABIVersion(v) + tail) == Some(Decoded(v, tail))
  {
    assert (MarshalABIVersion(v) + tail)[4..] == tail;
  }
}
