/**
 * The packed frames of the local-socket protocol.
 *
 * Every frame is a packed struct: its fields lie back to back in declaration
 * order with no padding, each in host (little-endian) byte order. Frames that
 * open a message carry the 16-bit magic number first.
 */
module Wire {
  import opened Bytes

  const PACKET_MAGIC: uint16 := 0x091E

  // Request types.
  const REQUEST_SUPPORTED_FORMATS: byte := 0x1
  const REQUEST_LOAD_DATA: byte := 0x2
  const REQUEST_LOAD_DATA_DESCRIPTOR: byte := 0x3
  const REQUEST_ABI_VERSION: byte := 0x4

  // Result codes.
  const IPCS_SUCCESS: byte := 0x1
  const IPCS_FAILURE: byte := 0x2

  // Response types.
  const RESPONSE_SUPPORTED_FORMAT_HEADER: byte := 0x1
  const RESPONSE_LOAD_DATA_HEADER: byte := 0x2
  const RESPONSE_SUPPORTED_FORMAT_DESCRIPTOR: byte := 0x3
  const RESPONSE_LOAD_DATA_DESCRIPTOR: byte := 0x4
  const RESPONSE_LOAD_OPTION_DESCRIPTOR: byte := 0x5
  const RESPONSE_ABI_VERSION: byte := 0x6

  // Load modes.
  const LOAD_INTERACTIVE: byte := 0x1
  const LOAD_HINT: byte := 0x2
  const LOAD_FILE: byte := 0x3

  // Sizes of the packed frames.
  const REQUEST_HEADER_SIZE := 3
  const RESPONSE_HEADER_SIZE := 12
  const LOAD_DATA_REQUEST_DESCRIPTOR_SIZE := 16
  const SUPPORTED_FORMAT_DESCRIPTOR_SIZE := 20
  const LOAD_OPTION_DESCRIPTOR_SIZE := 8
  const LOAD_DATA_RESPONSE_DESCRIPTOR_SIZE := 36
  const DATAPOINT_SIZE := 16
  const ABI_VERSION_SIZE := 12

  datatype RequestHeader = RequestHeader(magic: uint16, requestType: byte)

  datatype ResponseHeader = ResponseHeader(
    magic: uint16, responseType: byte, status: byte,
    items: int32, errorLength: uint32)

  datatype LoadDataRequestDescriptor = LoadDataRequestDescriptor(
    magic: uint16, requestType: byte, mode: byte,
    loadOption: int32, tagLength: uint32, filePathLength: uint32)

  datatype SupportedFormatResponseDescriptor = SupportedFormatResponseDescriptor(
    magic: uint16, responseType: byte, status: byte,
    longDescriptionLength: uint32, shortDescriptionLength: uint32,
    tagLength: uint32, loadOptionsLength: uint32)

  datatype LoadOptionDescriptor = LoadOptionDescriptor(
    magic: uint16, responseType: byte, status: byte, optionLength: uint32)

  datatype LoadDataResponseDescriptor = LoadDataResponseDescriptor(
    magic: uint16, responseType: byte, status: byte,
    nameLength: uint32, dataIdLength: uint32, pathLength: uint32,
    xDescriptionLength: uint32, yDescriptionLength: uint32,
    xUnitLength: uint32, yUnitLength: uint32, datapointsLength: uint32)

  datatype Datapoint = Datapoint(x: f64, y: f64)

  datatype ResponseABIVersion = ResponseABIVersion(
    magic: uint16, responseType: byte, status: byte, major: int32, minor: int32)

  /** The common opening of every response frame: magic, type and status. */
  function EncodePrologue(magic: uint16, responseType: byte, status: byte): (r: seq<byte>)
    ensures |r| == 4 && r[..2] == EncodeU16(magic) && r[2] == responseType && r[3] == status
  {
    EncodeU16(magic) + [responseType, status]
  }

  function EncodeRequestHeader(h: RequestHeader): (r: seq<byte>)
    ensures |r| == REQUEST_HEADER_SIZE
    ensures r[..2] == EncodeU16(h.magic)
  {
    EncodeU16(h.magic) + [h.requestType]
  }

  function DecodeRequestHeader(s: seq<byte>): RequestHeader
    requires |s| == REQUEST_HEADER_SIZE
  {
    RequestHeader(DecodeU16(s[..2]), s[2])
  }

  function EncodeResponseHeader(h: ResponseHeader): (r: seq<byte>)
    ensures |r| == RESPONSE_HEADER_SIZE
    ensures r[..2] == EncodeU16(h.magic)
  {
    EncodePrologue(h.magic, h.responseType, h.status) + EncodeI32(h.items) + EncodeU32(h.errorLength)
  }

  function DecodeResponseHeader(s: seq<byte>): ResponseHeader
    requires |s| == RESPONSE_HEADER_SIZE
  {
    ResponseHeader(DecodeU16(s[..2]), s[2], s[3], DecodeI32(s[4..8]), DecodeU32(s[8..12]))
  }

  function EncodeLoadDataRequestDescriptor(d: LoadDataRequestDescriptor): (r: seq<byte>)
    ensures |r| == LOAD_DATA_REQUEST_DESCRIPTOR_SIZE
    ensures r[..2] == EncodeU16(d.magic)
  {
    EncodeU16(d.magic) + [d.requestType, d.mode]
      + EncodeI32(d.loadOption) + EncodeU32(d.tagLength) + EncodeU32(d.filePathLength)
  }

  function DecodeLoadDataRequestDescriptor(s: seq<byte>): LoadDataRequestDescriptor
    requires |s| == LOAD_DATA_REQUEST_DESCRIPTOR_SIZE
  {
    LoadDataRequestDescriptor(DecodeU16(s[..2]), s[2], s[3],
      DecodeI32(s[4..8]), DecodeU32(s[8..12]), DecodeU32(s[12..16]))
  }

  function EncodeSupportedFormatResponseDescriptor(d: SupportedFormatResponseDescriptor): (r: seq<byte>)
    ensures |r| == SUPPORTED_FORMAT_DESCRIPTOR_SIZE
    ensures r[..2] == EncodeU16(d.magic)
  {
    EncodePrologue(d.magic, d.responseType, d.status)
      + EncodeU32(d.longDescriptionLength) + EncodeU32(d.shortDescriptionLength)
      + EncodeU32(d.tagLength) + EncodeU32(d.loadOptionsLength)
  }

  function DecodeSupportedFormatResponseDescriptor(s: seq<byte>): SupportedFormatResponseDescriptor
    requires |s| == SUPPORTED_FORMAT_DESCRIPTOR_SIZE
  {
    SupportedFormatResponseDescriptor(DecodeU16(s[..2]), s[2], s[3],
      DecodeU32(s[4..8]), DecodeU32(s[8..12]), DecodeU32(s[12..16]), DecodeU32(s[16..20]))
  }

  function EncodeLoadOptionDescriptor(d: LoadOptionDescriptor): (r: seq<byte>)
    ensures |r| == LOAD_OPTION_DESCRIPTOR_SIZE
    ensures r[..2] == EncodeU16(d.magic)
  {
    EncodePrologue(d.magic, d.responseType, d.status) + EncodeU32(d.optionLength)
  }

  function DecodeLoadOptionDescriptor(s: seq<byte>): LoadOptionDescriptor
    requires |s| == LOAD_OPTION_DESCRIPTOR_SIZE
  {
    LoadOptionDescriptor(DecodeU16(s[..2]), s[2], s[3], DecodeU32(s[4..8]))
  }

  function EncodeLoadDataResponseDescriptor(d: LoadDataResponseDescriptor): (r: seq<byte>)
    ensures |r| == LOAD_DATA_RESPONSE_DESCRIPTOR_SIZE
    ensures r[..2] == EncodeU16(d.magic)
  {
    EncodePrologue(d.magic, d.responseType, d.status)
      + EncodeU32(d.nameLength) + EncodeU32(d.dataIdLength) + EncodeU32(d.pathLength)
      + EncodeU32(d.xDescriptionLength) + EncodeU32(d.yDescriptionLength)
      + EncodeU32(d.xUnitLength) + EncodeU32(d.yUnitLength) + EncodeU32(d.datapointsLength)
  }

  function DecodeLoadDataResponseDescriptor(s: seq<byte>): LoadDataResponseDescriptor
    requires |s| == LOAD_DATA_RESPONSE_DESCRIPTOR_SIZE
  {
    LoadDataResponseDescriptor(DecodeU16(s[..2]), s[2], s[3],
      DecodeU32(s[4..8]), DecodeU32(s[8..12]), DecodeU32(s[12..16]),
      DecodeU32(s[16..20]), DecodeU32(s[20..24]),
      DecodeU32(s[24..28]), DecodeU32(s[28..32]), DecodeU32(s[32..36]))
  }

  function EncodeDatapoint(p: Datapoint): (r: seq<byte>)
    ensures |r| == DATAPOINT_SIZE
  {
    EncodeF64(p.x) + EncodeF64(p.y)
  }

  function DecodeDatapoint(s: seq<byte>): Datapoint
    requires |s| == DATAPOINT_SIZE
  {
    Datapoint(DecodeF64(s[..8]), DecodeF64(s[8..]))
  }

  function EncodeResponseABIVersion(v: ResponseABIVersion): (r: seq<byte>)
    ensures |r| == ABI_VERSION_SIZE
    ensures r[..2] == EncodeU16(v.magic)
  {
    EncodePrologue(v.magic, v.responseType, v.status) + EncodeI32(v.major) + EncodeI32(v.minor)
  }

  function DecodeResponseABIVersion(s: seq<byte>): ResponseABIVersion
    requires |s| == ABI_VERSION_SIZE
  {
    ResponseABIVersion(DecodeU16(s[..2]), s[2], s[3], DecodeI32(s[4..8]), DecodeI32(s[8..12]))
  }

  /** The 16-bit magic occupies the first two bytes of a frame and reads back unchanged. */
  lemma MagicLeads(magic: uint16, frame: seq<byte>)
    requires |frame| >= 2 && frame[..2] == EncodeU16(magic)
    ensures DecodeU16(frame[..2]) == magic
    ensures magic == PACKET_MAGIC ==> frame[0] == 0x1E && frame[1] == 0x09
  {
    U16RoundTrip(magic, frame[..2]);
  }

  lemma RequestHeaderRoundTrip(h: RequestHeader, s: seq<byte>)
    requires |s| == REQUEST_HEADER_SIZE
    ensures DecodeRequestHeader(EncodeRequestHeader(h)) == h
    ensures EncodeRequestHeader(DecodeRequestHeader(s)) == s
  {
    U16RoundTrip(h.magic, s[..2]);
    assert s == s[..2] + [s[2]];
  }

  lemma ResponseHeaderRoundTrip(h: ResponseHeader, s: seq<byte>)
    requires |s| == RESPONSE_HEADER_SIZE
    ensures DecodeResponseHeader(EncodeResponseHeader(h)) == h
    ensures EncodeResponseHeader(DecodeResponseHeader(s)) == s
  {
    var e := EncodeResponseHeader(h);
    assert e[..2] == EncodeU16(h.magic);
    assert e[4..8] == EncodeI32(h.items);
    assert e[8..12] == EncodeU32(h.errorLength);
    U16RoundTrip(h.magic, s[..2]);
    I32RoundTrip(h.items, s[4..8]);
    U32RoundTrip(h.errorLength, s[8..12]);
    assert s == s[..2] + [s[2], s[3]] + s[4..8] + s[8..12];
  }

  lemma LoadDataRequestDescriptorRoundTrip(d: LoadDataRequestDescriptor, s: seq<byte>)
    requires |s| == LOAD_DATA_REQUEST_DESCRIPTOR_SIZE
    ensures DecodeLoadDataRequestDescriptor(EncodeLoadDataRequestDescriptor(d)) == d
    ensures EncodeLoadDataRequestDescriptor(DecodeLoadDataRequestDescriptor(s)) == s
  {
    var e := EncodeLoadDataRequestDescriptor(d);
    assert e[..2] == EncodeU16(d.magic);
    assert e[4..8] == EncodeI32(d.loadOption);
    assert e[8..12] == EncodeU32(d.tagLength);
    assert e[12..16] == EncodeU32(d.filePathLength) by {
      var head := EncodeU16(d.magic) + [d.requestType, d.mode] + EncodeI32(d.loadOption) + EncodeU32(d.tagLength);
      assert e == head + EncodeU32(d.filePathLength) && |head| == 12;
      TailSlice(head, EncodeU32(d.filePathLength));
    }
    U16RoundTrip(d.magic, s[..2]);
    I32RoundTrip(d.loadOption, s[4..8]);
    U32RoundTrip(d.tagLength, s[8..12]);
    U32RoundTrip(d.filePathLength, s[12..16]);
    assert s == s[..2] + [s[2], s[3]] + s[4..8] + s[8..12] + s[12..16];
  }

  lemma SupportedFormatResponseDescriptorRoundTrip(d: SupportedFormatResponseDescriptor, s: seq<byte>)
    requires |s| == SUPPORTED_FORMAT_DESCRIPTOR_SIZE
    ensures DecodeSupportedFormatResponseDescriptor(EncodeSupportedFormatResponseDescriptor(d)) == d
    ensures EncodeSupportedFormatResponseDescriptor(DecodeSupportedFormatResponseDescriptor(s)) == s
  {
    var e := EncodeSupportedFormatResponseDescriptor(d);
    assert e[..2] == EncodeU16(d.magic);
    assert e[4..8] == EncodeU32(d.longDescriptionLength);
    assert e[8..12] == EncodeU32(d.shortDescriptionLength);
    assert e[12..16] == EncodeU32(d.tagLength);
    assert e[16..20] == EncodeU32(d.loadOptionsLength) by {
      var head := EncodePrologue(d.magic, d.responseType, d.status)
        + EncodeU32(d.longDescriptionLength) + EncodeU32(d.shortDescriptionLength) + EncodeU32(d.tagLength);
      assert e == head + EncodeU32(d.loadOptionsLength) && |head| == 16;
      TailSlice(head, EncodeU32(d.loadOptionsLength));
    }
    U16RoundTrip(d.magic, s[..2]);
    U32RoundTrip(d.longDescriptionLength, s[4..8]);
    U32RoundTrip(d.shortDescriptionLength, s[8..12]);
    U32RoundTrip(d.tagLength, s[12..16]);
    U32RoundTrip(d.loadOptionsLength, s[16..20]);
    assert s == s[..2] + [s[2], s[3]] + s[4..8] + s[8..12] + s[12..16] + s[16..20];
  }

  lemma LoadOptionDescriptorRoundTrip(d: LoadOptionDescriptor, s: seq<byte>)
    requires |s| == LOAD_OPTION_DESCRIPTOR_SIZE
    ensures DecodeLoadOptionDescriptor(EncodeLoadOptionDescriptor(d)) == d
    ensures EncodeLoadOptionDescriptor(DecodeLoadOptionDescriptor(s)) == s
  {
    var e := EncodeLoadOptionDescriptor(d);
    assert e[..2] == EncodeU16(d.magic);
    assert e[4..8] == EncodeU32(d.optionLength);
    U16RoundTrip(d.magic, s[..2]);
    U32RoundTrip(d.optionLength, s[4..8]);
    assert s == s[..2] + [s[2], s[3]] + s[4..8];
  }

  lemma LoadDataResponseDescriptorRoundTrip(d: LoadDataResponseDescriptor, s: seq<byte>)
    requires |s| == LOAD_DATA_RESPONSE_DESCRIPTOR_SIZE
    ensures DecodeLoadDataResponseDescriptor(EncodeLoadDataResponseDescriptor(d)) == d
    ensures EncodeLoadDataResponseDescriptor(DecodeLoadDataResponseDescriptor(s)) == s
  {
    var e := EncodeLoadDataResponseDescriptor(d);
    assert e[..2] == EncodeU16(d.magic);
    assert e[4..8] == EncodeU32(d.nameLength);
    assert e[8..12] == EncodeU32(d.dataIdLength);
    assert e[12..16] == EncodeU32(d.pathLength);
    assert e[16..20] == EncodeU32(d.xDescriptionLength);
    assert e[20..24] == EncodeU32(d.yDescriptionLength);
    assert e[24..28] == EncodeU32(d.xUnitLength);
    assert e[28..32] == EncodeU32(d.yUnitLength);
    assert e[32..36] == EncodeU32(d.datapointsLength) by {
      var head := EncodePrologue(d.magic, d.responseType, d.status)
        + EncodeU32(d.nameLength) + EncodeU32(d.dataIdLength) + EncodeU32(d.pathLength)
        + EncodeU32(d.xDescriptionLength) + EncodeU32(d.yDescriptionLength)
        + EncodeU32(d.xUnitLength) + EncodeU32(d.yUnitLength);
      assert e == head + EncodeU32(d.datapointsLength) && |head| == 32;
      TailSlice(head, EncodeU32(d.datapointsLength));
    }
    U16RoundTrip(d.magic, s[..2]);
    U32RoundTrip(d.nameLength, s[4..8]);
    U32RoundTrip(d.dataIdLength, s[8..12]);
    U32RoundTrip(d.pathLength, s[12..16]);
    U32RoundTrip(d.xDescriptionLength, s[16..20]);
    U32RoundTrip(d.yDescriptionLength, s[20..24]);
    U32RoundTrip(d.xUnitLength, s[24..28]);
    U32RoundTrip(d.yUnitLength, s[28..32]);
    U32RoundTrip(d.datapointsLength, s[32..36]);
    assert s == s[..2] + [s[2], s[3]] + s[4..8] + s[8..12] + s[12..16] + s[16..20]
      + s[20..24] + s[24..28] + s[28..32] + s[32..36];
  }

  lemma DatapointRoundTrip(p: Datapoint, s: seq<byte>)
    requires |s| == DATAPOINT_SIZE
    ensures DecodeDatapoint(EncodeDatapoint(p)) == p
    ensures EncodeDatapoint(DecodeDatapoint(s)) == s
  {
    var e := EncodeDatapoint(p);
    assert e[..8] == EncodeF64(p.x);
    assert e[8..] == EncodeF64(p.y);
    F64RoundTrip(p.x, s[..8]);
    F64RoundTrip(p.y, s[8..]);
    assert s == s[..8] + s[8..];
  }

  lemma ResponseABIVersionRoundTrip(v: ResponseABIVersion, s: seq<byte>)
    requires |s| == ABI_VERSION_SIZE
    ensures DecodeResponseABIVersion(EncodeResponseABIVersion(v)) == v
    ensures EncodeResponseABIVersion(DecodeResponseABIVersion(s)) == s
  {
    var e := EncodeResponseABIVersion(v);
    assert e[..2] == EncodeU16(v.magic);
    assert e[4..8] == EncodeI32(v.major);
    assert e[8..12] == EncodeI32(v.minor);
    U16RoundTrip(v.magic, s[..2]);
    I32RoundTrip(v.major, s[4..8]);
    I32RoundTrip(v.minor, s[8..12]);
    assert s == s[..2] + [s[2], s[3]] + s[4..8] + s[8..12];
  }
}
