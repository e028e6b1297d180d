/**
 * The D-Bus side of the service: the proxy turns the loader's answers into
 * D-Bus records, filling in a pack or a format list it is handed by
 * reference. Here the reference is an in-out value: the method receives the
 * record and returns it as the proxy leaves it.
 */
module DBusProxy {
  import opened Bytes
  import Wire
  import opened Loader
  import opened Responses
  import opened DBusTypes
  import opened Wrappers

  /** The loader call made for a request in `mode`; only Hint and File pass `modeParam` on. */
  function CallFor(tag: Text, mode: LoadMode, modeParam: Text, option: int32): (c: LoadCall)
  {
    match mode
    case Interactive => LoadCall(tag, Interactive, [], option)
    case Hint => LoadCall(tag, Hint, modeParam, option)
    case File => LoadCall(tag, File, modeParam, option)
  }

  function ToDBusPoint(p: Point): Datapoint
  {
    Datapoint(p.x, p.y)
  }

  /** The record for one dataset: every string and every point copied. */
  function ToDBusData(d: Dataset): Data
  {
    Data(d.path, d.dataId, d.name, d.xDescription, d.yDescription, d.xUnit, d.yUnit,
         MapSeq(d.datapoints, ToDBusPoint))
  }

  /** The dataset a client rebuilds from a record. */
  function FromDBusData(d: Data): Dataset
  {
    Dataset(d.name, d.dataId, d.path, d.xDescription, d.yDescription, d.xUnit, d.yUnit,
            MapSeq(d.datapoints, (p: Datapoint) => Point(p.x, p.y)))
  }

  /** The record for one format: every load option copied, however many there are. */
  function ToDBusFormat(f: FileFormatInfo): SupportedFileFormat
  {
    SupportedFileFormat(f.longDescription, f.shortDescription, f.tag, f.loadOptions)
  }

  /** `pack` as `onLoadData` leaves it once the loader answered `res`. */
  function Filled(pack: DataPack, res: LoadedPack): DataPack
  {
    if !res.success then pack.(success := false, error := res.error)
    else pack.(success := true, data := pack.data + MapSeq(res.data, ToDBusData))
  }

  /** The inner loop of `onLoadData`: one record, its points appended in order. */
  method ConvertData(d: Dataset) returns (dd: Data)
    ensures dd == ToDBusData(d)
  {
    dd := Data(d.path, d.dataId, d.name, d.xDescription, d.yDescription, d.xUnit, d.yUnit, []);
    for k := 0 to |d.datapoints|
      invariant dd == ToDBusData(d).(datapoints := MapSeq(d.datapoints[..k], ToDBusPoint))
    {
      assert d.datapoints[..k + 1] == d.datapoints[..k] + [d.datapoints[k]];
      MapSeqSnoc(d.datapoints[..k], d.datapoints[k], ToDBusPoint);
      dd := dd.(datapoints := dd.datapoints + [ToDBusPoint(d.datapoints[k])]);
    }
    assert d.datapoints[..|d.datapoints|] == d.datapoints;
  }

  lemma {:induction false} MapSeqSnoc<X, T>(xs: seq<X>, x: X, g: X -> T)
    ensures MapSeq(xs + [x], g) == MapSeq(xs, g) + [g(x)]
  {
  }

  /**
   * `onLoadData`: dispatch on the mode, then record a failure (success false,
   * the loader's message, the datasets untouched) or a success (success
   * true, one record per dataset appended in order, the error untouched).
   */
  method OnLoadData(pack: DataPack, loader: DataLoader, tag: Text, mode: LoadMode, modeParam: Text, option: int32)
    returns (out: DataPack)
    ensures out == Filled(pack, loader.load(CallFor(tag, mode, modeParam, option)))
  {
    var res: LoadedPack;
    match mode {
      case Interactive => res := loader.load(LoadCall(tag, Interactive, [], option));
      case Hint => res := loader.load(LoadCall(tag, Hint, modeParam, option));
      case File => res := loader.load(LoadCall(tag, File, modeParam, option));
    }
    out := pack;
    if !res.success {
      out := out.(success := false);
      out := out.(error := res.error);
    } else {
      out := out.(success := true);
      for k := 0 to |res.data|
        invariant out == pack.(success := true, data := pack.data + MapSeq(res.data[..k], ToDBusData))
      {
        var dd := ConvertData(res.data[k]);
        assert res.data[..k + 1] == res.data[..k] + [res.data[k]];
        MapSeqSnoc(res.data[..k], res.data[k], ToDBusData);
        out := out.(data := out.data + [dd]);
      }
      assert res.data[..|res.data|] == res.data;
    }
  }

  /** `onSupportedFileFormats`: one record per format appended, in loader order. */
  method OnSupportedFileFormats(vec: seq<SupportedFileFormat>, loader: DataLoader)
    returns (out: seq<SupportedFileFormat>)
    ensures out == vec + MapSeq(loader.formats, ToDBusFormat)
  {
    var infos := loader.formats;
    out := vec;
    for k := 0 to |infos|
      invariant out == vec + MapSeq(infos[..k], ToDBusFormat)
    {
      var ffi := infos[k];
      var opts: seq<Text> := [];
      for j := 0 to |ffi.loadOptions|
        invariant opts == ffi.loadOptions[..j]
      {
        opts := opts + [ffi.loadOptions[j]];
      }
      assert ffi.loadOptions[..|ffi.loadOptions|] == ffi.loadOptions;
      assert infos[..k + 1] == infos[..k] + [ffi];
      MapSeqSnoc(infos[..k], ffi, ToDBusFormat);
      out := out + [SupportedFileFormat(ffi.longDescription, ffi.shortDescription, ffi.tag, opts)];
    }
    assert infos[..|infos|] == infos;
  }

  // ------------------------------------------------------------ properties

  /** The mode decides the loader entry point; the tag and option always pass through. */
  lemma CallForDispatch(tag: Text, mode: LoadMode, modeParam: Text, option: int32)
    ensures var c := CallFor(tag, mode, modeParam, option);
      c.tag == tag && c.option == option && c.mode == mode
      && (mode == Interactive ==> c.path == [])
      && (mode != Interactive ==> c.path == modeParam)
  {
  }

  /** A client rebuilds from the records exactly the datasets the loader produced. */
  lemma {:induction false} DataRoundTrip(ds: seq<Dataset>)
    ensures MapSeq(MapSeq(ds, ToDBusData), FromDBusData) == ds
  {
    if |ds| > 0 {
      DataRoundTrip(ds[1..]);
      var d := ds[0];
      assert MapSeq(MapSeq(d.datapoints, ToDBusPoint), (p: Datapoint) => Point(p.x, p.y)) == d.datapoints;
      assert FromDBusData(ToDBusData(d)) == d;
      assert MapSeq(ds, ToDBusData)[1..] == MapSeq(ds[1..], ToDBusData);
    }
  }

  /**
   * Starting from a default pack, a failure carries the loader's message and
   * no data; a success carries every dataset and keeps the default "Empty
   * response" text as its error.
   */
  lemma FilledFromDefault(res: LoadedPack)
    ensures var p := Filled(DEFAULT_DATA_PACK, res);
      p.success == res.success
      && (!res.success ==> p.error == res.error && p.data == [])
      && (res.success ==> p.error == EMPTY_RESPONSE && MapSeq(p.data, FromDBusData) == res.data)
  {
    if res.success {
      DataRoundTrip(res.data);
      assert [] + MapSeq(res.data, ToDBusData) == MapSeq(res.data, ToDBusData);
    }
  }

  /** A failed load leaves the datasets already in the pack as they were. */
  lemma FailureKeepsData(pack: DataPack, res: LoadedPack)
    requires !res.success
    ensures Filled(pack, res).data == pack.data
    ensures Filled(pack, res).error == res.error
  {
  }

  /**
   * Both transports tell a client the same outcome: the socket client parses
   * the datasets or the message from the response, and the D-Bus client,
   * reading the marshalled pack, gets the same success flag and the same
   * datasets or message.
   */
  lemma TransportsAgree(res: LoadedPack, items: int32)
    requires DatasetsFit(res.data) && FitsU32(|res.error|)
    ensures var socketReply := if res.success then LoadSuccessResponse(res.data)
                               else ErrorResponse(Wire.RESPONSE_LOAD_DATA_HEADER, res.error, items);
      ParseLoadResponse(socketReply) == Some(if res.success then Ok(res.data) else Err(res.error))
    ensures var p := Filled(DEFAULT_DATA_PACK, res);
      var back := UnmarshalDataPack(MarshalDataPack(p), DEFAULT_DATA_PACK);
      back.Some? && back.value.value.success == res.success
      && (res.success ==> MapSeq(back.value.value.data, FromDBusData) == res.data)
      && (!res.success ==> back.value.value.error == res.error)
  {
    if res.success {
      LoadSuccessRoundTrip(res.data);
    } else {
      ErrorRoundTrip(res.error, items);
    }
    DataPackIdentity(Filled(DEFAULT_DATA_PACK, res));
    FilledFromDefault(res);
  }

  /**
   * The two transports differ on a format with exactly one load option: D-Bus
   * sends it, the socket announces none.
   */
  lemma OptionsDiffer(f: FileFormatInfo)
    ensures ToDBusFormat(f).loadOptions == f.loadOptions
    ensures ToDBusFormat(f).loadOptions == AsAnnounced(f).loadOptions <==> |f.loadOptions| != 1
  {
  }

  /**
   * The two transports lay out a dataset's strings in different orders:
   * D-Bus begins with the path, the socket with the name, so they agree only
   * when the two are equal.
   */
  lemma FieldOrderDiffers(d: Dataset)
    ensures var m := MarshalData(ToDBusData(d));
      m[1..4] == [String(d.path), String(d.dataId), String(d.name)]
      && Fields(d)[..3] == [d.name, d.dataId, d.path]
    ensures (forall k :: 1 <= k < 8 ==> MarshalData(ToDBusData(d))[k] == String(Fields(d)[k - 1]))
      <==> d.name == d.path
  {
    var m := MarshalData(ToDBusData(d));
    assert m[1] == String(d.path) && m[3] == String(d.name);
  }
}
