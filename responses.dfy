/**
 * The exact bytes the connection handler sends, and a reference client-side
 * decoder for them.
 *
 * The encoders say what goes on the wire; the decoders read a response the
 * way a client must (frame by frame, using the lengths each descriptor
 * announces). The round-trip lemmas show the responses are self-delimiting
 * and lose nothing, except that the format list drops a load-option list of
 * fewer than two entries.
 */
module Responses {
  import opened Bytes
  import opened Wire
  import opened Loader
  import opened Wrappers

  /** `f` applied to each element, the results laid end to end. */
  function ConcatMap<T>(xs: seq<T>, f: T -> seq<byte>): seq<byte>
  {
    if |xs| == 0 then [] else f(xs[0]) + ConcatMap(xs[1..], f)
  }

  lemma {:induction false} ConcatMapSnoc<T>(xs: seq<T>, f: T -> seq<byte>, i: nat)
    requires i < |xs|
    ensures ConcatMap(xs[..i + 1], f) == ConcatMap(xs[..i], f) + f(xs[i])
  {
    if i > 0 {
      ConcatMapSnoc(xs[1..], f, i - 1);
      assert xs[..i + 1][1..] == xs[1..][..i];
      assert xs[..i][1..] == xs[1..][..i - 1];
    } else {
      assert xs[..1][1..] == [];
    }
  }

  lemma ConcatMapCons<T>(xs: seq<T>, f: T -> seq<byte>, rest: seq<byte>)
    requires |xs| > 0
    ensures ConcatMap(xs, f) + rest == f(xs[0]) + (ConcatMap(xs[1..], f) + rest)
  {
  }

  lemma ConcatMapAll<T>(xs: seq<T>, f: T -> seq<byte>)
    ensures ConcatMap(xs[..|xs|], f) == ConcatMap(xs, f)
  {
    assert xs[..|xs|] == xs;
  }

  /** The strings laid end to end. */
  function Concat(ss: seq<Text>): (r: seq<byte>)
  {
    if |ss| == 0 then [] else ss[0] + Concat(ss[1..])
  }

  function Lengths(ss: seq<Text>): (r: seq<nat>)
    ensures |r| == |ss|
    ensures forall i :: 0 <= i < |ss| ==> r[i] == |ss[i]|
  {
    if |ss| == 0 then [] else [|ss[0]|] + Lengths(ss[1..])
  }

  // ---------------------------------------------------------------- encoders

  /** A failure response: a header with status Failure, then the message. `items` is never set. */
  function ErrorResponse(responseType: byte, message: Text, items: int32): (r: seq<byte>)
    ensures |r| == RESPONSE_HEADER_SIZE + |message|
    ensures r[..RESPONSE_HEADER_SIZE] == EncodeResponseHeader(
      ResponseHeader(PACKET_MAGIC, responseType, IPCS_FAILURE, items, ToUInt32(|message|)))
    ensures r[RESPONSE_HEADER_SIZE..] == message
  {
    EncodeResponseHeader(ResponseHeader(PACKET_MAGIC, responseType, IPCS_FAILURE, items, ToUInt32(|message|)))
      + message
  }

  function AbiResponse(major: int32, minor: int32): (r: seq<byte>)
    ensures |r| == ABI_VERSION_SIZE
  {
    EncodeResponseABIVersion(ResponseABIVersion(PACKET_MAGIC, RESPONSE_ABI_VERSION, IPCS_SUCCESS, major, minor))
  }

  /** The header of a successful response announcing `n` items. */
  function SuccessHeader(responseType: byte, n: nat): (r: seq<byte>)
    ensures |r| == RESPONSE_HEADER_SIZE
  {
    EncodeResponseHeader(ResponseHeader(PACKET_MAGIC, responseType, IPCS_SUCCESS, ToInt32(n), 0))
  }

  function PointBytes(p: Point): (r: seq<byte>)
    ensures |r| == DATAPOINT_SIZE
  {
    EncodeDatapoint(Datapoint(p.x, p.y))
  }

  /** The seven strings of a dataset in the order they are sent. */
  function Fields(d: Dataset): (r: seq<Text>)
    ensures |r| == 7
  {
    [d.name, d.dataId, d.path, d.xDescription, d.yDescription, d.xUnit, d.yUnit]
  }

  function DatasetDescriptor(d: Dataset): LoadDataResponseDescriptor
  {
    LoadDataResponseDescriptor(PACKET_MAGIC, RESPONSE_LOAD_DATA_DESCRIPTOR, IPCS_SUCCESS,
      ToUInt32(|d.name|), ToUInt32(|d.dataId|), ToUInt32(|d.path|),
      ToUInt32(|d.xDescription|), ToUInt32(|d.yDescription|),
      ToUInt32(|d.xUnit|), ToUInt32(|d.yUnit|), ToUInt32(|d.datapoints|))
  }

  function DatasetBytes(d: Dataset): seq<byte>
  {
    EncodeLoadDataResponseDescriptor(DatasetDescriptor(d)) + Concat(Fields(d))
      + ConcatMap(d.datapoints, PointBytes)
  }

  function LoadSuccessResponse(ds: seq<Dataset>): seq<byte>
  {
    SuccessHeader(RESPONSE_LOAD_DATA_HEADER, |ds|) + ConcatMap(ds, DatasetBytes)
  }

  function OptionBytes(o: Text): seq<byte>
  {
    EncodeLoadOptionDescriptor(LoadOptionDescriptor(PACKET_MAGIC, RESPONSE_LOAD_OPTION_DESCRIPTOR,
      IPCS_SUCCESS, ToUInt32(|o|))) + o
  }

  /** The option count announced for a format: the count when above one, else zero. */
  function AnnouncedOptions(f: FileFormatInfo): (n: uint32)
    ensures |f.loadOptions| > 1 && |f.loadOptions| < 0x1_0000_0000 ==> n == |f.loadOptions|
    ensures |f.loadOptions| <= 1 ==> n == 0
  {
    if |f.loadOptions| > 1 then ToUInt32(|f.loadOptions|) else 0
  }

  function FormatDescriptor(f: FileFormatInfo): SupportedFormatResponseDescriptor
  {
    SupportedFormatResponseDescriptor(PACKET_MAGIC, RESPONSE_SUPPORTED_FORMAT_DESCRIPTOR, IPCS_SUCCESS,
      ToUInt32(|f.longDescription|), ToUInt32(|f.shortDescription|), ToUInt32(|f.tag|),
      AnnouncedOptions(f))
  }

  function FormatBytes(f: FileFormatInfo): seq<byte>
  {
    EncodeSupportedFormatResponseDescriptor(FormatDescriptor(f))
      + f.longDescription + f.shortDescription + f.tag
      + (if |f.loadOptions| > 1 then ConcatMap(f.loadOptions, OptionBytes) else [])
  }

  function FormatsResponse(fs: seq<FileFormatInfo>): seq<byte>
  {
    SuccessHeader(RESPONSE_SUPPORTED_FORMAT_HEADER, |fs|) + ConcatMap(fs, FormatBytes)
  }

  // ---------------------------------------------------------------- decoders

  /** What remains of the input after a successful decoding step. */
  datatype Parsed<T> = Parsed(value: T, rest: seq<byte>)

  /** Splits off the first `n` bytes. */
  function Take(s: seq<byte>, n: nat): (r: Option<Parsed<seq<byte>>>)
    ensures r.Some? <==> n <= |s|
    ensures r.Some? ==> |r.value.value| == n && r.value.value + r.value.rest == s
  {
    if n <= |s| then Some(Parsed(s[..n], s[n..])) else None
  }

  /** Splits off one string per announced length. */
  function TakeAll(s: seq<byte>, lens: seq<nat>): (r: Option<Parsed<seq<Text>>>)
    ensures r.Some? ==> |r.value.value| == |lens|
  {
    if |lens| == 0 then Some(Parsed([], s))
    else
      var first := Take(s, lens[0]);
      if first.None? then None
      else
        var more := TakeAll(first.value.rest, lens[1..]);
        if more.None? then None
        else Some(Parsed([first.value.value] + more.value.value, more.value.rest))
  }

  /** `n` items read one after another with the item decoder `p`. */
  function ParseMany<T>(s: seq<byte>, n: nat, p: seq<byte> -> Option<Parsed<T>>): Option<Parsed<seq<T>>>
    decreases n
  {
    if n == 0 then Some(Parsed([], s))
    else
      var first := p(s);
      if first.None? then None
      else
        var more := ParseMany(first.value.rest, n - 1, p);
        if more.None? then None
        else Some(Parsed([first.value.value] + more.value.value, more.value.rest))
  }

  function ParsePoint(s: seq<byte>): Option<Parsed<Point>>
  {
    if |s| < DATAPOINT_SIZE then None
    else
      var p := DecodeDatapoint(s[..DATAPOINT_SIZE]);
      Some(Parsed(Point(p.x, p.y), s[DATAPOINT_SIZE..]))
  }

  /** The body of a dataset, after its descriptor `h`: seven strings, then the points. */
  function ParseDatasetBody(h: LoadDataResponseDescriptor, s: seq<byte>): Option<Parsed<Dataset>>
  {
    var lens := [h.nameLength, h.dataIdLength, h.pathLength, h.xDescriptionLength,
                 h.yDescriptionLength, h.xUnitLength, h.yUnitLength];
    var fs := TakeAll(s, lens);
    if fs.None? then None
    else
      var t := fs.value.value;
      var ps := ParseMany(fs.value.rest, h.datapointsLength, ParsePoint);
      if ps.None? then None
      else Some(Parsed(Dataset(t[0], t[1], t[2], t[3], t[4], t[5], t[6], ps.value.value), ps.value.rest))
  }

  function ParseDataset(s: seq<byte>): Option<Parsed<Dataset>>
  {
    if |s| < LOAD_DATA_RESPONSE_DESCRIPTOR_SIZE then None
    else
      var h := DecodeLoadDataResponseDescriptor(s[..LOAD_DATA_RESPONSE_DESCRIPTOR_SIZE]);
      if h.magic != PACKET_MAGIC || h.responseType != RESPONSE_LOAD_DATA_DESCRIPTOR then None
      else ParseDatasetBody(h, s[LOAD_DATA_RESPONSE_DESCRIPTOR_SIZE..])
  }

  /**
   * A client's reading of a load-data response: the datasets on success, the
   * message on failure, `None` when the bytes are not a well-formed response.
   */
  function ParseLoadResponse(s: seq<byte>): Option<Result<seq<Dataset>, Text>>
  {
    if |s| < RESPONSE_HEADER_SIZE then None
    else
      var h := DecodeResponseHeader(s[..RESPONSE_HEADER_SIZE]);
      var body := s[RESPONSE_HEADER_SIZE..];
      if h.magic != PACKET_MAGIC || h.responseType != RESPONSE_LOAD_DATA_HEADER then None
      else if h.status == IPCS_FAILURE then
        (if |body| == h.errorLength then Some(Err(body)) else None)
      else if h.status != IPCS_SUCCESS || h.items < 0 then None
      else
        var ds := ParseMany(body, h.items, ParseDataset);
        if ds.Some? && ds.value.rest == [] then Some(Ok(ds.value.value)) else None
  }

  function ParseOption(s: seq<byte>): Option<Parsed<Text>>
  {
    if |s| < LOAD_OPTION_DESCRIPTOR_SIZE then None
    else
      var h := DecodeLoadOptionDescriptor(s[..LOAD_OPTION_DESCRIPTOR_SIZE]);
      if h.magic != PACKET_MAGIC || h.responseType != RESPONSE_LOAD_OPTION_DESCRIPTOR then None
      else Take(s[LOAD_OPTION_DESCRIPTOR_SIZE..], h.optionLength)
  }

  /** The body of a format entry, after its descriptor `h`: three strings, then the options. */
  function ParseFormatBody(h: SupportedFormatResponseDescriptor, s: seq<byte>): Option<Parsed<FileFormatInfo>>
  {
    var fs := TakeAll(s, [h.longDescriptionLength, h.shortDescriptionLength, h.tagLength]);
    if fs.None? then None
    else
      var t := fs.value.value;
      var os := ParseMany(fs.value.rest, h.loadOptionsLength, ParseOption);
      if os.None? then None
      else Some(Parsed(FileFormatInfo(t[0], t[1], t[2], os.value.value), os.value.rest))
  }

  function ParseFormat(s: seq<byte>): Option<Parsed<FileFormatInfo>>
  {
    if |s| < SUPPORTED_FORMAT_DESCRIPTOR_SIZE then None
    else
      var h := DecodeSupportedFormatResponseDescriptor(s[..SUPPORTED_FORMAT_DESCRIPTOR_SIZE]);
      if h.magic != PACKET_MAGIC || h.responseType != RESPONSE_SUPPORTED_FORMAT_DESCRIPTOR then None
      else ParseFormatBody(h, s[SUPPORTED_FORMAT_DESCRIPTOR_SIZE..])
  }

  /** A client's reading of a supported-formats response. */
  function ParseFormatsResponse(s: seq<byte>): Option<seq<FileFormatInfo>>
  {
    if |s| < RESPONSE_HEADER_SIZE then None
    else
      var h := DecodeResponseHeader(s[..RESPONSE_HEADER_SIZE]);
      if h.magic != PACKET_MAGIC || h.responseType != RESPONSE_SUPPORTED_FORMAT_HEADER
         || h.status != IPCS_SUCCESS || h.items < 0 then None
      else
        var fs := ParseMany(s[RESPONSE_HEADER_SIZE..], h.items, ParseFormat);
        if fs.Some? && fs.value.rest == [] then Some(fs.value.value) else None
  }

  // ---------------------------------------------------------------- round trips

  /** Every length the encoders write fits its 32-bit field. */
  predicate FitsU32(n: nat) { n < 0x1_0000_0000 }

  predicate DatasetFits(d: Dataset)
  {
    FitsU32(|d.name|) && FitsU32(|d.dataId|) && FitsU32(|d.path|)
    && FitsU32(|d.xDescription|) && FitsU32(|d.yDescription|)
    && FitsU32(|d.xUnit|) && FitsU32(|d.yUnit|) && FitsU32(|d.datapoints|)
  }

  predicate DatasetsFit(ds: seq<Dataset>)
  {
    |ds| < 0x8000_0000 && forall d <- ds :: DatasetFits(d)
  }

  predicate FormatFits(f: FileFormatInfo)
  {
    FitsU32(|f.longDescription|) && FitsU32(|f.shortDescription|) && FitsU32(|f.tag|)
    && FitsU32(|f.loadOptions|) && forall o <- f.loadOptions :: FitsU32(|o|)
  }

  predicate FormatsFit(fs: seq<FileFormatInfo>)
  {
    |fs| < 0x8000_0000 && forall f <- fs :: FormatFits(f)
  }

  /** What a client learns about a format: options are announced only when there are several. */
  function AsAnnounced(f: FileFormatInfo): (r: FileFormatInfo)
  {
    if |f.loadOptions| > 1 then f else f.(loadOptions := [])
  }

  function MapSeq<X, T>(xs: seq<X>, g: X -> T): (r: seq<T>)
    ensures |r| == |xs|
    ensures forall i :: 0 <= i < |xs| ==> r[i] == g(xs[i])
  {
    if |xs| == 0 then [] else [g(xs[0])] + MapSeq(xs[1..], g)
  }

  /**
   * Items laid end to end read back one by one, whenever the item decoder
   * undoes the item encoder.
   */
  lemma {:induction false} ParseManyRoundTrip<X, T>(xs: seq<X>, f: X -> seq<byte>,
      p: seq<byte> -> Option<Parsed<T>>, g: X -> T, rest: seq<byte>)
    requires forall x <- xs, r: seq<byte> :: p(f(x) + r) == Some(Parsed(g(x), r))
    ensures ParseMany(ConcatMap(xs, f) + rest, |xs|, p) == Some(Parsed(MapSeq(xs, g), rest))
  {
    if |xs| > 0 {
      var tail := ConcatMap(xs[1..], f) + rest;
      ConcatMapCons(xs, f, rest);
      assert p(f(xs[0]) + tail) == Some(Parsed(g(xs[0]), tail));
      ParseManyRoundTrip(xs[1..], f, p, g, rest);
    } else {
      assert ConcatMap(xs, f) + rest == rest;
    }
  }

  lemma TakeFirst(a: seq<byte>, rest: seq<byte>)
    ensures Take(a + rest, |a|) == Some(Parsed(a, rest))
  {
    assert (a + rest)[..|a|] == a;
    assert (a + rest)[|a|..] == rest;
  }

  lemma {:induction false} TakeAllConcat(ss: seq<Text>, rest: seq<byte>)
    ensures TakeAll(Concat(ss) + rest, Lengths(ss)) == Some(Parsed(ss, rest))
  {
    if |ss| > 0 {
      var tail := Concat(ss[1..]) + rest;
      var s := Concat(ss) + rest;
      var lens := Lengths(ss);
      assert s == ss[0] + tail;
      TakeFirst(ss[0], tail);
      assert Take(s, lens[0]) == Some(Parsed(ss[0], tail));
      assert lens[1..] == Lengths(ss[1..]);
      TakeAllConcat(ss[1..], rest);
      assert TakeAll(tail, lens[1..]) == Some(Parsed(ss[1..], rest));
      assert [ss[0]] + ss[1..] == ss;
    } else {
      assert Concat(ss) + rest == rest;
    }
  }

  lemma ParsePointRoundTrip(p: Point, rest: seq<byte>)
    ensures ParsePoint(PointBytes(p) + rest) == Some(Parsed(p, rest))
  {
    var s := PointBytes(p) + rest;
    assert s[..DATAPOINT_SIZE] == PointBytes(p);
    assert s[DATAPOINT_SIZE..] == rest;
    DatapointRoundTrip(Datapoint(p.x, p.y), s[..DATAPOINT_SIZE]);
  }

  lemma ParsePointsRoundTrip(ps: seq<Point>, rest: seq<byte>)
    ensures ParseMany(ConcatMap(ps, PointBytes) + rest, |ps|, ParsePoint) == Some(Parsed(ps, rest))
  {
    forall p <- ps, r: seq<byte> ensures ParsePoint(PointBytes(p) + r) == Some(Parsed(p, r)) {
      ParsePointRoundTrip(p, r);
    }
    ParseManyRoundTrip(ps, PointBytes, ParsePoint, (p: Point) => p, rest);
    assert MapSeq(ps, (p: Point) => p) == ps;
  }

  lemma ParseDatasetBodyRoundTrip(d: Dataset, rest: seq<byte>)
    requires DatasetFits(d)
    ensures ParseDatasetBody(DatasetDescriptor(d), Concat(Fields(d)) + (ConcatMap(d.datapoints, PointBytes) + rest))
      == Some(Parsed(d, rest))
  {
    var h := DatasetDescriptor(d);
    assert [h.nameLength, h.dataIdLength, h.pathLength, h.xDescriptionLength,
            h.yDescriptionLength, h.xUnitLength, h.yUnitLength] == Lengths(Fields(d));
    TakeAllConcat(Fields(d), ConcatMap(d.datapoints, PointBytes) + rest);
    ParsePointsRoundTrip(d.datapoints, rest);
  }

  lemma ParseDatasetRoundTrip(d: Dataset, rest: seq<byte>)
    requires DatasetFits(d)
    ensures ParseDataset(DatasetBytes(d) + rest) == Some(Parsed(d, rest))
  {
    var s := DatasetBytes(d) + rest;
    var e := EncodeLoadDataResponseDescriptor(DatasetDescriptor(d));
    var tail := Concat(Fields(d)) + (ConcatMap(d.datapoints, PointBytes) + rest);
    assert s == e + tail;
    assert s[..LOAD_DATA_RESPONSE_DESCRIPTOR_SIZE] == e;
    assert s[LOAD_DATA_RESPONSE_DESCRIPTOR_SIZE..] == tail;
    LoadDataResponseDescriptorRoundTrip(DatasetDescriptor(d), e);
    ParseDatasetBodyRoundTrip(d, rest);
  }

  /** A client reads back exactly the datasets the loader produced. */
  lemma LoadSuccessRoundTrip(ds: seq<Dataset>)
    requires DatasetsFit(ds)
    ensures ParseLoadResponse(LoadSuccessResponse(ds)) == Some(Ok(ds))
  {
    var s := LoadSuccessResponse(ds);
    var hb := SuccessHeader(RESPONSE_LOAD_DATA_HEADER, |ds|);
    assert s[..RESPONSE_HEADER_SIZE] == hb;
    assert s[RESPONSE_HEADER_SIZE..] == ConcatMap(ds, DatasetBytes) + [];
    ResponseHeaderRoundTrip(ResponseHeader(PACKET_MAGIC, RESPONSE_LOAD_DATA_HEADER, IPCS_SUCCESS,
      ToInt32(|ds|), 0), hb);
    forall d <- ds, r: seq<byte> ensures ParseDataset(DatasetBytes(d) + r) == Some(Parsed(d, r)) {
      ParseDatasetRoundTrip(d, r);
    }
    ParseManyRoundTrip(ds, DatasetBytes, ParseDataset, (d: Dataset) => d, []);
    assert MapSeq(ds, (d: Dataset) => d) == ds;
  }

  /** A client reads back exactly the message of a failure response, whatever `items` holds. */
  lemma ErrorRoundTrip(message: Text, items: int32)
    requires FitsU32(|message|)
    ensures ParseLoadResponse(ErrorResponse(RESPONSE_LOAD_DATA_HEADER, message, items)) == Some(Err(message))
  {
    var h := ResponseHeader(PACKET_MAGIC, RESPONSE_LOAD_DATA_HEADER, IPCS_FAILURE, items, ToUInt32(|message|));
    ResponseHeaderRoundTrip(h, EncodeResponseHeader(h));
  }

  lemma ParseOptionRoundTrip(o: Text, rest: seq<byte>)
    requires FitsU32(|o|)
    ensures ParseOption(OptionBytes(o) + rest) == Some(Parsed(o, rest))
  {
    var h := LoadOptionDescriptor(PACKET_MAGIC, RESPONSE_LOAD_OPTION_DESCRIPTOR, IPCS_SUCCESS, ToUInt32(|o|));
    var e := EncodeLoadOptionDescriptor(h);
    var s := OptionBytes(o) + rest;
    assert s == e + (o + rest);
    assert s[..LOAD_OPTION_DESCRIPTOR_SIZE] == e;
    assert s[LOAD_OPTION_DESCRIPTOR_SIZE..] == o + rest;
    LoadOptionDescriptorRoundTrip(h, e);
    TakeFirst(o, rest);
  }

  lemma ParseOptionsRoundTrip(os: seq<Text>, rest: seq<byte>)
    requires forall o <- os :: FitsU32(|o|)
    ensures ParseMany(ConcatMap(os, OptionBytes) + rest, |os|, ParseOption) == Some(Parsed(os, rest))
  {
    forall o <- os, r: seq<byte> ensures ParseOption(OptionBytes(o) + r) == Some(Parsed(o, r)) {
      ParseOptionRoundTrip(o, r);
    }
    ParseManyRoundTrip(os, OptionBytes, ParseOption, (o: Text) => o, rest);
    assert MapSeq(os, (o: Text) => o) == os;
  }

  lemma ParseFormatBodyRoundTrip(f: FileFormatInfo, rest: seq<byte>)
    requires FormatFits(f)
    ensures ParseFormatBody(FormatDescriptor(f),
      Concat([f.longDescription, f.shortDescription, f.tag])
      + ((if |f.loadOptions| > 1 then ConcatMap(f.loadOptions, OptionBytes) else []) + rest))
      == Some(Parsed(AsAnnounced(f), rest))
  {
    var texts := [f.longDescription, f.shortDescription, f.tag];
    var opts := if |f.loadOptions| > 1 then ConcatMap(f.loadOptions, OptionBytes) else [];
    var h := FormatDescriptor(f);
    assert [h.longDescriptionLength, h.shortDescriptionLength, h.tagLength] == Lengths(texts);
    TakeAllConcat(texts, opts + rest);
    if |f.loadOptions| > 1 {
      ParseOptionsRoundTrip(f.loadOptions, rest);
    } else {
      assert opts + rest == rest;
    }
  }

  lemma ThreeConcat(a: Text, b: Text, c: Text)
    ensures Concat([a, b, c]) == a + b + c
  {
    assert [a, b, c][1..] == [b, c];
    assert [b, c][1..] == [c];
    assert [c][1..] == [];
    assert Concat([c]) == c;
    assert Concat([b, c]) == b + c;
  }

  /** A format descriptor with the magic and the right type hands the rest to `ParseFormatBody`. */
  lemma ParseFormatHead(f: FileFormatInfo, tail: seq<byte>)
    ensures ParseFormat(EncodeSupportedFormatResponseDescriptor(FormatDescriptor(f)) + tail)
      == ParseFormatBody(FormatDescriptor(f), tail)
  {
    var e := EncodeSupportedFormatResponseDescriptor(FormatDescriptor(f));
    var s := e + tail;
    assert s[..SUPPORTED_FORMAT_DESCRIPTOR_SIZE] == e;
    assert s[SUPPORTED_FORMAT_DESCRIPTOR_SIZE..] == tail;
    SupportedFormatResponseDescriptorRoundTrip(FormatDescriptor(f), e);
  }

  lemma Regroup(e: seq<byte>, a: seq<byte>, b: seq<byte>, c: seq<byte>, o: seq<byte>, r: seq<byte>)
    ensures e + a + b + c + o + r == e + ((a + b + c) + (o + r))
  {
  }

  lemma ParseFormatRoundTrip(f: FileFormatInfo, rest: seq<byte>)
    requires FormatFits(f)
    ensures ParseFormat(FormatBytes(f) + rest) == Some(Parsed(AsAnnounced(f), rest))
  {
    var opts := if |f.loadOptions| > 1 then ConcatMap(f.loadOptions, OptionBytes) else [];
    var e := EncodeSupportedFormatResponseDescriptor(FormatDescriptor(f));
    var tail := Concat([f.longDescription, f.shortDescription, f.tag]) + (opts + rest);
    ThreeConcat(f.longDescription, f.shortDescription, f.tag);
    Regroup(e, f.longDescription, f.shortDescription, f.tag, opts, rest);
    ParseFormatHead(f, tail);
    ParseFormatBodyRoundTrip(f, rest);
  }

  /**
   * A client reads back every format in loader order, with its descriptions
   * and tag intact; a format's option labels survive only when it has more
   * than one.
   */
  lemma FormatsRoundTrip(fs: seq<FileFormatInfo>)
    requires FormatsFit(fs)
    ensures ParseFormatsResponse(FormatsResponse(fs)) == Some(MapSeq(fs, AsAnnounced))
  {
    var s := FormatsResponse(fs);
    var hb := SuccessHeader(RESPONSE_SUPPORTED_FORMAT_HEADER, |fs|);
    assert s[..RESPONSE_HEADER_SIZE] == hb;
    assert s[RESPONSE_HEADER_SIZE..] == ConcatMap(fs, FormatBytes) + [];
    ResponseHeaderRoundTrip(ResponseHeader(PACKET_MAGIC, RESPONSE_SUPPORTED_FORMAT_HEADER, IPCS_SUCCESS,
      ToInt32(|fs|), 0), hb);
    forall f <- fs, r: seq<byte> ensures ParseFormat(FormatBytes(f) + r) == Some(Parsed(AsAnnounced(f), r)) {
      ParseFormatRoundTrip(f, r);
    }
    ParseManyRoundTrip(fs, FormatBytes, ParseFormat, AsAnnounced, []);
  }

  /** Every response opens with the packet magic. */
  lemma ResponsesStartWithMagic(ds: seq<Dataset>, fs: seq<FileFormatInfo>, message: Text,
                                items: int32, major: int32, minor: int32)
    ensures LoadSuccessResponse(ds)[..2] == EncodeU16(PACKET_MAGIC)
    ensures FormatsResponse(fs)[..2] == EncodeU16(PACKET_MAGIC)
    ensures ErrorResponse(RESPONSE_LOAD_DATA_HEADER, message, items)[..2] == EncodeU16(PACKET_MAGIC)
    ensures AbiResponse(major, minor)[..2] == EncodeU16(PACKET_MAGIC)
  {
    var h1 := SuccessHeader(RESPONSE_LOAD_DATA_HEADER, |ds|);
    assert LoadSuccessResponse(ds)[..2] == h1[..2];
    var h2 := SuccessHeader(RESPONSE_SUPPORTED_FORMAT_HEADER, |fs|);
    assert FormatsResponse(fs)[..2] == h2[..2];
    var h3 := EncodeResponseHeader(ResponseHeader(PACKET_MAGIC, RESPONSE_LOAD_DATA_HEADER, IPCS_FAILURE,
      items, ToUInt32(|message|)));
    assert ErrorResponse(RESPONSE_LOAD_DATA_HEADER, message, items)[..2] == h3[..2];
  }
}
