/**
 * The methods the service exports on D-Bus. Each starts from a fresh record,
 * forwards the request to the proxy, which fills the record in, and returns
 * the record. The ABI version numbers are defined outside the files modelled
 * here and enter as parameters.
 */
module DBusInterface {
  import opened Bytes
  import Wire
  import opened Loader
  import opened Responses
  import opened DBusTypes
  import opened DBusProxy
  import opened Wrappers

  /** `abiVersion`: the service's ABI version, major then minor. */
  function AbiVersion(major: int32, minor: int32): ABIVersion
  {
    ABIVersion(major, minor)
  }

  /** The D-Bus and the socket transports report the same ABI version. */
  lemma AbiVersionAgrees(major: int32, minor: int32)
    ensures UnmarshalABIVersion(MarshalABIVersion(AbiVersion(major, minor)))
      == Some(Decoded(ABIVersion(major, minor), []))
    ensures var v := Wire.DecodeResponseABIVersion(AbiResponse(major, minor));
      v.major == major && v.minor == minor
  {
    ABIVersionRoundTrip(AbiVersion(major, minor), []);
    assert MarshalABIVersion(AbiVersion(major, minor)) + [] == MarshalABIVersion(AbiVersion(major, minor));
    var v := Wire.ResponseABIVersion(Wire.PACKET_MAGIC, Wire.RESPONSE_ABI_VERSION, Wire.IPCS_SUCCESS, major, minor);
    Wire.ResponseABIVersionRoundTrip(v, Wire.EncodeResponseABIVersion(v));
  }

  /** `loadData`: an interactive load, with an empty mode parameter. */
  method LoadData(loader: DataLoader, formatTag: Text, loadOption: int32) returns (pack: DataPack)
    ensures pack == Filled(DEFAULT_DATA_PACK, loader.load(LoadCall(formatTag, Interactive, [], loadOption)))
  {
    pack := DEFAULT_DATA_PACK;
    assert CallFor(formatTag, Interactive, [], loadOption) == LoadCall(formatTag, Interactive, [], loadOption);
    pack := OnLoadData(pack, loader, formatTag, Interactive, [], loadOption);
  }

  /** `loadDataHint`: a load that passes the hint on as its mode parameter. */
  method LoadDataHint(loader: DataLoader, formatTag: Text, hint: Text, loadOption: int32) returns (pack: DataPack)
    ensures pack == Filled(DEFAULT_DATA_PACK, loader.load(LoadCall(formatTag, Hint, hint, loadOption)))
  {
    pack := DEFAULT_DATA_PACK;
    assert CallFor(formatTag, Hint, hint, loadOption) == LoadCall(formatTag, Hint, hint, loadOption);
    pack := OnLoadData(pack, loader, formatTag, Hint, hint, loadOption);
  }

  /** `loadDataFile`: a load that passes the file path on as its mode parameter. */
  method LoadDataFile(loader: DataLoader, formatTag: Text, filePath: Text, loadOption: int32) returns (pack: DataPack)
    ensures pack == Filled(DEFAULT_DATA_PACK, loader.load(LoadCall(formatTag, File, filePath, loadOption)))
  {
    pack := DEFAULT_DATA_PACK;
    assert CallFor(formatTag, File, filePath, loadOption) == LoadCall(formatTag, File, filePath, loadOption);
    pack := OnLoadData(pack, loader, formatTag, File, filePath, loadOption);
  }

  /** `supportedFileFormats`: one record per format of the loader, in its order, starting from an empty vector. */
  method SupportedFileFormats(loader: DataLoader) returns (vec: seq<SupportedFileFormat>)
    ensures |vec| == |loader.formats|
    ensures forall k :: 0 <= k < |vec| ==> vec[k] == ToDBusFormat(loader.formats[k])
  {
    vec := [];
    vec := OnSupportedFileFormats(vec, loader);
  }

  /**
   * What an interactive D-Bus client receives: the loader's outcome for an
   * interactive call with the given tag and option, read back from the
   * marshalled pack.
   */
  lemma LoadDataOutcome(loader: DataLoader, formatTag: Text, loadOption: int32)
    ensures var res := loader.load(LoadCall(formatTag, Interactive, [], loadOption));
      var p := Filled(DEFAULT_DATA_PACK, res);
      p.success == res.success
      && (res.success ==> p.error == EMPTY_RESPONSE && MapSeq(p.data, FromDBusData) == res.data)
      && (!res.success ==> p.error == res.error && p.data == [])
  {
    FilledFromDefault(loader.load(LoadCall(formatTag, Interactive, [], loadOption)));
  }
}
