/**
 * The per-connection logic of the local-socket transport: read a request
 * header, dispatch on its type, validate a load request, and answer with the
 * frames the protocol prescribes.
 *
 * The reading side is specified by pure functions of the peer's schedule
 * (`ReadLoop`, `ReadLoadRequest`, `Converse`); the methods are proved to
 * follow them. The writing side is specified by the response encoders: what a
 * method writes always extends what was there, it is exactly the response
 * when the method reports success, and it is exactly the response whenever
 * the socket accepted every write and flush.
 */
module ConnectionHandler {
  import opened Bytes
  import opened Wire
  import opened Loader
  import opened Socket
  import opened Responses
  import opened Wrappers

  /** Largest block handed to one `write` call by the Windows build. */
  const MAX_SEGMENT_SIZE := 4095

  /** The ASCII bytes of the three messages with which a load request is refused. */
  // "Invalid length of formatTag"
  const INVALID_TAG_LENGTH: Text := [0x49, 0x6E, 0x76, 0x61, 0x6C, 0x69, 0x64, 0x20, 0x6C, 0x65, 0x6E, 0x67, 0x74, 0x68, 0x20, 0x6F, 0x66, 0x20, 0x66, 0x6F, 0x72, 0x6D, 0x61, 0x74, 0x54, 0x61, 0x67]
  // "Invalid file path length"
  const INVALID_PATH_LENGTH: Text := [0x49, 0x6E, 0x76, 0x61, 0x6C, 0x69, 0x64, 0x20, 0x66, 0x69, 0x6C, 0x65, 0x20, 0x70, 0x61, 0x74, 0x68, 0x20, 0x6C, 0x65, 0x6E, 0x67, 0x74, 0x68]
  // "Invalid load mode"
  const INVALID_LOAD_MODE: Text := [0x49, 0x6E, 0x76, 0x61, 0x6C, 0x69, 0x64, 0x20, 0x6C, 0x6F, 0x61, 0x64, 0x20, 0x6D, 0x6F, 0x64, 0x65]

  // ------------------------------------------------------------ reading

  /** The outcome of reading a block: success, the bytes read, and the read side afterwards. */
  datatype Block = Block(ok: bool, bytes: seq<byte>, rest: Inbound)

  /**
   * The read loop of `readBlock`, having read `acc` so far: while fewer than
   * `size` bytes are in, it fails once the socket is no longer connected or a
   * read returns a negative count, and otherwise reads at most the number of
   * bytes still missing.
   */
  function ReadLoop(i: Inbound, size: nat, acc: seq<byte>): (b: Block)
    requires |acc| <= size
    decreases (if i.connected then 1 else 0), |i.pending|, |i.rx|
    ensures |b.bytes| <= size && (b.ok ==> |b.bytes| == size)
  {
    if |acc| == size then Block(true, acc, i)
    else if !i.connected then Block(false, acc, i)
    else
      var s := ReadStep(i, size - |acc|);
      ReadStepProgress(i, size - |acc|);
      if s.r < 0 then Block(false, acc, s.next)
      else ReadLoop(s.next, size, acc + s.got)
  }

  /** Bytes appended in two steps, each the front of what remained, are together the front of the stream. */
  lemma AppendedFront(acc: seq<byte>, got: seq<byte>, bytes: seq<byte>,
                      stream: seq<byte>, next: seq<byte>, rest: seq<byte>)
    requires acc + got <= bytes && stream == got + next && next == bytes[|acc + got|..] + rest
    ensures acc <= bytes && stream == bytes[|acc|..] + rest
  {
    assert bytes[|acc|..] == got + bytes[|acc + got|..];
    AppendAssoc(got, bytes[|acc + got|..], rest);
  }

  /**
   * The loop only appends to what it has, never beyond `size`, reaches
   * `size` when it succeeds, and what it appends is the front of the stream.
   */
  lemma {:induction false} ReadLoopFacts(i: Inbound, size: nat, acc: seq<byte>)
    requires |acc| <= size
    decreases (if i.connected then 1 else 0), |i.pending|, |i.rx|
    ensures var b := ReadLoop(i, size, acc);
      acc <= b.bytes && Stream(i) == b.bytes[|acc|..] + Stream(b.rest)
  {
    if |acc| < size && i.connected {
      var s := ReadStep(i, size - |acc|);
      ReadStepProgress(i, size - |acc|);
      ReadStepKeepsStream(i, size - |acc|);
      if s.r >= 0 {
        var b := ReadLoop(s.next, size, acc + s.got);
        assert ReadLoop(i, size, acc) == b;
        ReadLoopFacts(s.next, size, acc + s.got);
        AppendedFront(acc, s.got, b.bytes, Stream(i), Stream(s.next), Stream(b.rest));
      } else {
        assert ReadLoop(i, size, acc) == Block(false, acc, s.next);
        assert s.got == [] && acc[|acc|..] == [];
      }
    } else {
      assert ReadLoop(i, size, acc).bytes == acc && acc[|acc|..] == [];
    }
  }

  /**
   * A block is read exactly when enough bytes arrive, before the first read
   * error, while the socket is connected.
   */
  lemma {:induction false} ReadLoopSucceeds(i: Inbound, size: nat, acc: seq<byte>)
    requires |acc| <= size
    decreases (if i.connected then 1 else 0), |i.pending|, |i.rx|
    ensures ReadLoop(i, size, acc).ok <==>
      |acc| == size || (i.connected && |acc| + |i.rx + Reachable(i.pending)| >= size)
  {
    if |acc| < size && i.connected {
      var s := ReadStep(i, size - |acc|);
      ReadStepProgress(i, size - |acc|);
      ReadStepReachable(i, size - |acc|);
      if s.r >= 0 {
        ReadLoopSucceeds(s.next, size, acc + s.got);
      }
    }
  }

  /**
   * The read loop of `readBlock` as written: every read asks for `size` bytes
   * although only `size - read` are still missing.
   */
  function ReadLoopAsWritten(i: Inbound, size: nat, acc: seq<byte>): (b: Block)
    decreases (if i.connected then 1 else 0), |i.pending|, |i.rx|
    ensures acc <= b.bytes
    ensures b.ok ==> |b.bytes| >= size
  {
    if |acc| >= size then Block(true, acc, i)
    else if !i.connected then Block(false, acc, i)
    else
      var s := ReadStep(i, size);
      ReadStepProgress(i, size);
      if s.r < 0 then Block(false, acc, s.next)
      else ReadLoopAsWritten(s.next, size, acc + s.got)
  }

  /**
   * A header that arrives in two pieces, one byte and then four: the loop as
   * written stores four bytes into a three-byte buffer, and the first byte of
   * whatever follows the header is consumed with it.
   */
  lemma ReadBlockOverrun()
    ensures var b := ReadLoopAsWritten(Inbound([], [Chunk([0x1E]), Chunk([0x09, 0x01, 0x1E, 0x09])], true), 3, []);
      b.ok && |b.bytes| == 4 && b.rest.rx == [0x09]
  {
    var i0 := Inbound([], [Chunk([0x1E]), Chunk([0x09, 0x01, 0x1E, 0x09])], true);
    var s0 := ReadStep(i0, 3);
    assert s0.got == [0x1E] && s0.next == Inbound([], [Chunk([0x09, 0x01, 0x1E, 0x09])], true);
    var s1 := ReadStep(s0.next, 3);
    assert s1.got == [0x09, 0x01, 0x1E] && s1.next.rx == [0x09];
    assert ReadLoopAsWritten(s1.next, 3, [0x1E] + [0x09, 0x01, 0x1E]).bytes == [0x1E, 0x09, 0x01, 0x1E];
  }

  /** The same arrivals, read by the corrected loop: exactly the header, the next frame intact. */
  lemma ReadBlockExact()
    ensures var b := ReadLoop(Inbound([], [Chunk([0x1E]), Chunk([0x09, 0x01, 0x1E, 0x09])], true), 3, []);
      b.ok && b.bytes == [0x1E, 0x09, 0x01] && b.rest.rx == [0x1E, 0x09]
  {
    var i0 := Inbound([], [Chunk([0x1E]), Chunk([0x09, 0x01, 0x1E, 0x09])], true);
    var s0 := ReadStep(i0, 3);
    assert s0.got == [0x1E] && s0.next == Inbound([], [Chunk([0x09, 0x01, 0x1E, 0x09])], true);
    var s1 := ReadStep(s0.next, 2);
    assert s1.got == [0x09, 0x01] && s1.next.rx == [0x1E, 0x09];
    assert ReadLoop(s1.next, 3, [0x1E] + [0x09, 0x01]).bytes == [0x1E, 0x09, 0x01];
  }

  /** A read that returns no more than `m` bytes returns the same when asked for only `m`. */
  lemma ReadStepNarrow(i: Inbound, m: nat, n: nat)
    requires 0 < m <= n && |ReadStep(i, n).got| <= m
    ensures ReadStep(i, m) == ReadStep(i, n)
  {
  }

  /**
   * No read of the loop as written, from `acc` on, returns more bytes than
   * are still missing.
   */
  predicate ReadsFit(i: Inbound, size: nat, acc: seq<byte>)
    decreases (if i.connected then 1 else 0), |i.pending|, |i.rx|
  {
    if |acc| >= size || !i.connected then true
    else
      var s := ReadStep(i, size);
      ReadStepProgress(i, size);
      s.r < 0 || (|acc| + |s.got| <= size && ReadsFit(s.next, size, acc + s.got))
  }

  /**
   * The loop as written and the corrected one agree, in every outcome,
   * exactly when no read returns more than the bytes still missing; on any
   * other schedule the loop as written holds more than `size` bytes.
   */
  lemma {:induction false} AsWrittenAgrees(i: Inbound, size: nat, acc: seq<byte>)
    requires |acc| <= size
    decreases (if i.connected then 1 else 0), |i.pending|, |i.rx|
    ensures ReadLoopAsWritten(i, size, acc) == ReadLoop(i, size, acc) <==> ReadsFit(i, size, acc)
    ensures !ReadsFit(i, size, acc) ==> |ReadLoopAsWritten(i, size, acc).bytes| > size
  {
    if |acc| < size && i.connected {
      var s := ReadStep(i, size);
      ReadStepProgress(i, size);
      if |acc| + |s.got| <= size {
        ReadStepNarrow(i, size - |acc|, size);
        if s.r >= 0 {
          AsWrittenAgrees(s.next, size, acc + s.got);
        }
      } else {
        assert s.r >= 0;
        var b := ReadLoopAsWritten(s.next, size, acc + s.got);
        assert ReadLoopAsWritten(i, size, acc) == b;
        assert |b.bytes| >= |acc + s.got| > size;
      }
    }
  }

  /** `WAIT_FOR_DATA`: wait only when nothing is buffered. */
  function WaitForData(i: Inbound): (w: WaitResult)
    ensures Stream(w.next) == Stream(i)
    ensures |i.rx| > 0 ==> w == WaitResult(true, i)
  {
    if |i.rx| > 0 then WaitResult(true, i) else WaitStep(i)
  }

  /** What the validation of a load request decides. */
  datatype LoadRequest =
    | Drop                      // stop without answering
    | Reject(message: Text)     // answer with a failure response
    | Call(call: LoadCall)      // ask the loader

  datatype Parse = Parse(request: LoadRequest, rest: Inbound)

  /** The load mode a request descriptor names, if it names one. */
  function ModeOf(mode: byte): (m: Option<LoadMode>)
    ensures m == Some(Interactive) <==> mode == LOAD_INTERACTIVE
    ensures m == Some(Hint) <==> mode == LOAD_HINT
    ensures m == Some(File) <==> mode == LOAD_FILE
  {
    if mode == LOAD_INTERACTIVE then Some(Interactive)
    else if mode == LOAD_HINT then Some(Hint)
    else if mode == LOAD_FILE then Some(File)
    else None
  }

  /**
   * The last stage of a load request, once the tag is in: a Hint or File
   * request must announce a path, which is then read; an Interactive request
   * has none; any other mode is refused.
   */
  function ReadPath(d: LoadDataRequestDescriptor, tag: Text, i: Inbound): Parse
  {
    match ModeOf(d.mode)
    case None => Parse(Reject(INVALID_LOAD_MODE), i)
    case Some(Interactive) => Parse(Call(LoadCall(tag, Interactive, [], d.loadOption)), i)
    case Some(mode) =>
      if d.filePathLength == 0 then Parse(Reject(INVALID_PATH_LENGTH), i)
      else
        var w := WaitForData(i);
        if !w.ready then Parse(Drop, w.next)
        else
          var b := ReadLoop(w.next, d.filePathLength, []);
          if !b.ok then Parse(Drop, b.rest)
          else Parse(Call(LoadCall(tag, mode, b.bytes, d.loadOption)), b.rest)
  }

  /** The stages after the descriptor: its signature, its tag length, the tag, then the path. */
  function ReadTag(d: LoadDataRequestDescriptor, i: Inbound): Parse
  {
    if d.magic != PACKET_MAGIC || d.requestType != REQUEST_LOAD_DATA_DESCRIPTOR then Parse(Drop, i)
    else if d.tagLength < 1 then Parse(Reject(INVALID_TAG_LENGTH), i)
    else
      var w := WaitForData(i);
      if !w.ready then Parse(Drop, w.next)
      else
        var t := ReadLoop(w.next, d.tagLength, []);
        if !t.ok then Parse(Drop, t.rest)
        else ReadPath(d, t.bytes, t.rest)
  }

  /** How `respondLoadData` reads and validates a request. */
  function ReadLoadRequest(i: Inbound): Parse
  {
    var w := WaitForData(i);
    if !w.ready then Parse(Drop, w.next)
    else
      var b := ReadLoop(w.next, LOAD_DATA_REQUEST_DESCRIPTOR_SIZE, []);
      if !b.ok then Parse(Drop, b.rest)
      else ReadTag(DecodeLoadDataRequestDescriptor(b.bytes), b.rest)
  }

  lemma AppendExtends(a: seq<byte>, b: seq<byte>)
    ensures a <= a + b
  {
  }

  /** A block read from scratch is the next bytes of the stream. */
  lemma ReadBlockSplits(i: Inbound, size: nat)
    ensures var b := ReadLoop(i, size, []);
      Stream(i) == b.bytes + Stream(b.rest)
  {
    var b := ReadLoop(i, size, []);
    ReadLoopFacts(i, size, []);
    assert b.bytes[0..] == b.bytes;
  }

  /**
   * A path stage that ends in a loader call passes on the tag, the option
   * and the mode the descriptor names, and a path of exactly the announced
   * length for Hint and File (none for Interactive), consuming the path and
   * nothing else.
   */
  lemma ReadPathCall(d: LoadDataRequestDescriptor, tag: Text, i: Inbound)
    ensures var p := ReadPath(d, tag, i);
      p.request.Call? ==>
        var c := p.request.call;
        c.tag == tag && c.option == d.loadOption && Some(c.mode) == ModeOf(d.mode)
        && (c.mode == Interactive ==> c.path == [])
        && (c.mode != Interactive ==> |c.path| == d.filePathLength > 0)
        && Stream(i) == c.path + Stream(p.rest)
  {
    match ModeOf(d.mode)
    case None =>
    case Some(Interactive) =>
      assert [] + Stream(i) == Stream(i);
    case Some(mode) =>
      if d.filePathLength > 0 {
        var w := WaitForData(i);
        if w.ready {
          ReadBlockSplits(w.next, d.filePathLength);
        }
      }
  }

  /** A tag stage that ends in a loader call had a valid descriptor and read exactly the tag and the path. */
  lemma ReadTagCall(d: LoadDataRequestDescriptor, i: Inbound)
    ensures var p := ReadTag(d, i);
      p.request.Call? ==>
        var c := p.request.call;
        d.magic == PACKET_MAGIC && d.requestType == REQUEST_LOAD_DATA_DESCRIPTOR
        && |c.tag| == d.tagLength > 0 && c.option == d.loadOption && Some(c.mode) == ModeOf(d.mode)
        && (c.mode == Interactive ==> c.path == [])
        && (c.mode != Interactive ==> |c.path| == d.filePathLength > 0)
        && Stream(i) == c.tag + c.path + Stream(p.rest)
  {
    if d.magic == PACKET_MAGIC && d.requestType == REQUEST_LOAD_DATA_DESCRIPTOR && d.tagLength >= 1 {
      var w := WaitForData(i);
      if w.ready {
        var t := ReadLoop(w.next, d.tagLength, []);
        if t.ok {
          ReadBlockSplits(w.next, d.tagLength);
          var p := ReadPath(d, t.bytes, t.rest);
          ReadPathCall(d, t.bytes, t.rest);
          if p.request.Call? {
            AppendAssoc(t.bytes, p.request.call.path, Stream(p.rest));
          }
        }
      }
    }
  }

  /**
   * A loader call is made only for a request that arrived whole: a
   * descriptor with the magic and type 3, then exactly the tag and the path
   * it announces; the call carries them, and nothing more is consumed.
   */
  lemma ReadLoadRequestCall(i: Inbound)
    ensures var p := ReadLoadRequest(i);
      p.request.Call? ==>
        var c := p.request.call;
        |Stream(i)| >= LOAD_DATA_REQUEST_DESCRIPTOR_SIZE
        && var raw := Stream(i)[..LOAD_DATA_REQUEST_DESCRIPTOR_SIZE];
        var d := DecodeLoadDataRequestDescriptor(raw);
        d.magic == PACKET_MAGIC && d.requestType == REQUEST_LOAD_DATA_DESCRIPTOR
        && |c.tag| == d.tagLength > 0 && c.option == d.loadOption && Some(c.mode) == ModeOf(d.mode)
        && (c.mode == Interactive ==> c.path == [])
        && (c.mode != Interactive ==> |c.path| == d.filePathLength > 0)
        && Stream(i) == raw + c.tag + c.path + Stream(p.rest)
  {
    var w := WaitForData(i);
    if w.ready {
      var b := ReadLoop(w.next, LOAD_DATA_REQUEST_DESCRIPTOR_SIZE, []);
      if b.ok {
        ReadBlockSplits(w.next, LOAD_DATA_REQUEST_DESCRIPTOR_SIZE);
        var d := DecodeLoadDataRequestDescriptor(b.bytes);
        var p := ReadTag(d, b.rest);
        ReadTagCall(d, b.rest);
        if p.request.Call? {
          var c := p.request.call;
          assert Stream(i)[..LOAD_DATA_REQUEST_DESCRIPTOR_SIZE] == b.bytes;
          AppendAssoc(c.tag, c.path, Stream(p.rest));
          AppendAssoc(b.bytes, c.tag + c.path, Stream(p.rest));
          AppendAssoc(b.bytes, c.tag, c.path);
        }
      }
    }
  }

  /** The messages with which `respondLoadData` refuses a request. */
  predicate RejectMessage(m: Text)
  {
    m == INVALID_TAG_LENGTH || m == INVALID_PATH_LENGTH || m == INVALID_LOAD_MODE
  }

  lemma ReadPathRejects(d: LoadDataRequestDescriptor, tag: Text, i: Inbound)
    ensures var p := ReadPath(d, tag, i);
      p.request.Reject? ==> p.request.message == INVALID_PATH_LENGTH || p.request.message == INVALID_LOAD_MODE
  {
    match ModeOf(d.mode)
    case None =>
    case Some(Interactive) =>
    case Some(mode) =>
      if d.filePathLength > 0 {
        var w := WaitForData(i);
        if w.ready {
          var b := ReadLoop(w.next, d.filePathLength, []);
          assert ReadPath(d, tag, i).request == Drop || ReadPath(d, tag, i).request.Call?;
        }
      }
  }

  lemma ReadTagRejects(d: LoadDataRequestDescriptor, i: Inbound)
    ensures var p := ReadTag(d, i);
      p.request.Reject? ==> RejectMessage(p.request.message)
  {
    if d.magic == PACKET_MAGIC && d.requestType == REQUEST_LOAD_DATA_DESCRIPTOR && d.tagLength >= 1 {
      var w := WaitForData(i);
      if w.ready {
        var t := ReadLoop(w.next, d.tagLength, []);
        if t.ok {
          ReadPathRejects(d, t.bytes, t.rest);
        }
      }
    }
  }

  /** A refused request is refused with one of the three messages of `respondLoadData`. */
  lemma RejectMessages(i: Inbound)
    ensures var p := ReadLoadRequest(i);
      p.request.Reject? ==> RejectMessage(p.request.message)
  {
    var w := WaitForData(i);
    if w.ready {
      var b := ReadLoop(w.next, LOAD_DATA_REQUEST_DESCRIPTOR_SIZE, []);
      if b.ok {
        ReadTagRejects(DecodeLoadDataRequestDescriptor(b.bytes), b.rest);
      }
    }
  }

  /**
   * The order of the checks: a descriptor with a wrong signature is dropped
   * and one announcing an empty tag is refused, both before anything more is
   * read; a tag that does not arrive ends the request silently; once the tag
   * is in, an unknown mode is refused, and so is a Hint or File request that
   * announces an empty path, before anything more is read. A tag that is
   * already buffered whole always arrives.
   */
  lemma LoadRequestValidation(d: LoadDataRequestDescriptor, i: Inbound)
    ensures d.magic != PACKET_MAGIC || d.requestType != REQUEST_LOAD_DATA_DESCRIPTOR ==>
      ReadTag(d, i) == Parse(Drop, i)
    ensures d.magic == PACKET_MAGIC && d.requestType == REQUEST_LOAD_DATA_DESCRIPTOR && d.tagLength == 0 ==>
      ReadTag(d, i) == Parse(Reject(INVALID_TAG_LENGTH), i)
    ensures d.magic == PACKET_MAGIC && d.requestType == REQUEST_LOAD_DATA_DESCRIPTOR && d.tagLength > 0
      && !(WaitForData(i).ready && ReadLoop(WaitForData(i).next, d.tagLength, []).ok)
      ==> ReadTag(d, i).request == Drop
    ensures d.magic == PACKET_MAGIC && d.requestType == REQUEST_LOAD_DATA_DESCRIPTOR && d.tagLength > 0
      && WaitForData(i).ready && ReadLoop(WaitForData(i).next, d.tagLength, []).ok
      ==> var t := ReadLoop(WaitForData(i).next, d.tagLength, []);
          (ModeOf(d.mode).None? ==> ReadTag(d, i) == Parse(Reject(INVALID_LOAD_MODE), t.rest))
          && (ModeOf(d.mode).Some? && ModeOf(d.mode) != Some(Interactive) && d.filePathLength == 0 ==>
                ReadTag(d, i) == Parse(Reject(INVALID_PATH_LENGTH), t.rest))
    ensures d.magic == PACKET_MAGIC && d.requestType == REQUEST_LOAD_DATA_DESCRIPTOR && d.tagLength > 0
      && ModeOf(d.mode).None? && i.connected && |i.rx| >= d.tagLength
      ==> ReadTag(d, i).request == Reject(INVALID_LOAD_MODE)
  {
    if d.magic == PACKET_MAGIC && d.requestType == REQUEST_LOAD_DATA_DESCRIPTOR && d.tagLength > 0
       && ModeOf(d.mode).None? && i.connected && |i.rx| >= d.tagLength {
      ReadLoopSucceeds(i, d.tagLength, []);
    }
  }

  /** The answer to a validated load request, `items` being whatever the unset field held. */
  function LoadReply(req: LoadRequest, loader: DataLoader, items: int32): (r: seq<byte>)
    ensures r == [] <==> req.Drop?
  {
    match req
    case Drop => []
    case Reject(message) => ErrorResponse(RESPONSE_LOAD_DATA_HEADER, message, items)
    case Call(c) =>
      var res := loader.load(c);
      if res.success then LoadSuccessResponse(res.data)
      else ErrorResponse(RESPONSE_LOAD_DATA_HEADER, res.error, items)
  }

  /** A whole connection: what is sent, which loader call is made, and what is left unread. */
  datatype Exchange = Exchange(sent: seq<byte>, call: Option<LoadCall>, rest: Inbound)

  /** `handleConnection` as a function of the peer's behaviour. */
  function Converse(i: Inbound, loader: DataLoader, major: int32, minor: int32, items: int32): Exchange
  {
    var w := WaitForData(i);
    if !w.ready then Exchange([], None, w.next)
    else
      var b := ReadLoop(w.next, REQUEST_HEADER_SIZE, []);
      if !b.ok then Exchange([], None, b.rest)
      else
        var h := DecodeRequestHeader(b.bytes);
        if h.magic != PACKET_MAGIC then Exchange([], None, b.rest)
        else if h.requestType == REQUEST_SUPPORTED_FORMATS then
          Exchange(FormatsResponse(loader.formats), None, b.rest)
        else if h.requestType == REQUEST_LOAD_DATA then
          var p := ReadLoadRequest(b.rest);
          Exchange(LoadReply(p.request, loader, items),
                   if p.request.Call? then Some(p.request.call) else None, p.rest)
        else if h.requestType == REQUEST_ABI_VERSION then
          Exchange(AbiResponse(major, minor), None, b.rest)
        else Exchange([], None, b.rest)
  }

  /**
   * A client gets the answer to the question it asked: a reply is sent only
   * to a header carrying the magic and a known request type, and the
   * reference decoder reads from it the formats, the ABI version, or the
   * loader's datasets or error message.
   */
  lemma ConverseAnswers(i: Inbound, loader: DataLoader, major: int32, minor: int32, items: int32)
    requires FormatsFit(loader.formats)
    requires forall c: LoadCall :: DatasetsFit(loader.load(c).data) && FitsU32(|loader.load(c).error|)
    ensures var e := Converse(i, loader, major, minor, items);
      e.sent != [] ==>
        |Stream(i)| >= REQUEST_HEADER_SIZE
        && var h := DecodeRequestHeader(Stream(i)[..REQUEST_HEADER_SIZE]);
        h.magic == PACKET_MAGIC
        && (h.requestType == REQUEST_SUPPORTED_FORMATS || h.requestType == REQUEST_LOAD_DATA
            || h.requestType == REQUEST_ABI_VERSION)
        && (h.requestType == REQUEST_SUPPORTED_FORMATS ==>
              ParseFormatsResponse(e.sent) == Some(MapSeq(loader.formats, AsAnnounced)))
        && (h.requestType == REQUEST_ABI_VERSION ==>
              |e.sent| == ABI_VERSION_SIZE && DecodeResponseABIVersion(e.sent)
                == ResponseABIVersion(PACKET_MAGIC, RESPONSE_ABI_VERSION, IPCS_SUCCESS, major, minor))
        && (h.requestType == REQUEST_LOAD_DATA && e.call.Some? ==>
              var res := loader.load(e.call.value);
              ParseLoadResponse(e.sent) == Some(if res.success then Ok(res.data) else Err(res.error)))
  {
    var e := Converse(i, loader, major, minor, items);
    if e.sent != [] {
      var w := WaitForData(i);
      var b := ReadLoop(w.next, REQUEST_HEADER_SIZE, []);
      ReadBlockSplits(w.next, REQUEST_HEADER_SIZE);
      assert Stream(i)[..REQUEST_HEADER_SIZE] == b.bytes;
      var h := DecodeRequestHeader(b.bytes);
      if h.requestType == REQUEST_SUPPORTED_FORMATS {
        FormatsRoundTrip(loader.formats);
      } else if h.requestType == REQUEST_ABI_VERSION {
        var v := ResponseABIVersion(PACKET_MAGIC, RESPONSE_ABI_VERSION, IPCS_SUCCESS, major, minor);
        ResponseABIVersionRoundTrip(v, EncodeResponseABIVersion(v));
      } else if e.call.Some? {
        var res := loader.load(e.call.value);
        if res.success {
          LoadSuccessRoundTrip(res.data);
        } else {
          ErrorRoundTrip(res.error, items);
        }
      }
    }
  }

  // ------------------------------------------------------------ writing

  /** No write since the `from`-th carried more than one segment. */
  ghost predicate Segmented(sizes: seq<nat>, from: nat)
  {
    forall k | from <= k < |sizes| :: sizes[k] <= MAX_SEGMENT_SIZE
  }

  lemma SegmentedSnoc(sizes: seq<nat>, from: nat, n: nat)
    requires Segmented(sizes, from) && n <= MAX_SEGMENT_SIZE
    ensures Segmented(sizes + [n], from)
  {
  }

  lemma SegmentedJoin(a: seq<nat>, b: seq<nat>, c: seq<nat>)
    requires a <= b <= c && Segmented(b, |a|) && Segmented(c, |b|)
    ensures Segmented(c, |a|)
  {
    forall k | |a| <= k < |c| ensures c[k] <= MAX_SEGMENT_SIZE {
      if k < |b| {
        assert c[k] == b[k];
      }
    }
  }

  lemma ConcatPair(a: Text, b: Text)
    ensures Concat([a, b]) == a + b
  {
    assert [a, b][1..] == [b];
    assert [b][1..] == [];
    assert Concat([b]) == b + [];
    assert b + [] == b;
  }

  lemma Extends(a: seq<byte>, b: seq<byte>, c: seq<byte>)
    requires a <= b <= c
    ensures a <= c
  {
  }

  /**
   * `writeSegmented`: on Windows, the payload goes out in writes of at most
   * 4095 bytes, each followed by a wait for it to be written; elsewhere in a
   * single write that must be accepted whole. Nothing beyond the payload is
   * ever sent.
   */
  method WriteSegmented(sock: LocalSocket, payload: seq<byte>, windows: bool) returns (ok: bool)
    modifies sock
    ensures ok ==> sock.output == old(sock.output) + payload
    ensures old(sock.output) <= sock.output <= old(sock.output) + payload
    ensures sock.faults >= old(sock.faults)
    ensures sock.faults == old(sock.faults) ==> ok
    ensures old(sock.writeSizes) <= sock.writeSizes
    ensures windows ==> Segmented(sock.writeSizes, |old(sock.writeSizes)|)
    ensures !windows ==> sock.writeSizes == old(sock.writeSizes) + (if |payload| == 0 then [] else [|payload|])
    ensures sock.inbound == old(sock.inbound)
  {
    if windows {
      var written := 0;
      while written < |payload|
        invariant 0 <= written <= |payload|
        invariant sock.output == old(sock.output) + payload[..written]
        invariant sock.faults >= old(sock.faults)
        invariant old(sock.writeSizes) <= sock.writeSizes
        invariant Segmented(sock.writeSizes, |old(sock.writeSizes)|)
        invariant sock.inbound == old(sock.inbound)
      {
        var writeMax := if |payload| - written > MAX_SEGMENT_SIZE then MAX_SEGMENT_SIZE else |payload| - written;
        ghost var sizes := sock.writeSizes;
        var w := sock.Write(payload[written..written + writeMax]);
        SegmentedSnoc(sizes, |old(sock.writeSizes)|, writeMax);
        if w < 1 {
          return false;
        }
        assert payload[..written] + payload[written..written + writeMax][..w] == payload[..written + w];
        written := written + w;
        var flushed := sock.WaitForBytesWritten();
        if !flushed {
          return false;
        }
      }
      assert payload[..written] == payload;
      return true;
    } else {
      if |payload| == 0 {
        return true;
      }
      var w := sock.Write(payload);
      ok := w == |payload|;
    }
  }

  /** `finalize`: wait for bytes to be written until none are left, failing on the first failed wait. */
  method Finalize(sock: LocalSocket) returns (ok: bool)
    modifies sock
    ensures ok ==> sock.unflushed == 0
    ensures sock.faults >= old(sock.faults)
    ensures sock.faults == old(sock.faults) ==> ok
    ensures sock.output == old(sock.output) && sock.writeSizes == old(sock.writeSizes)
    ensures sock.inbound == old(sock.inbound)
  {
    var first := true;
    while first || sock.BytesToWrite() > 0
      invariant sock.faults >= old(sock.faults)
      invariant sock.output == old(sock.output) && sock.writeSizes == old(sock.writeSizes)
      invariant sock.inbound == old(sock.inbound)
      decreases sock.unflushed, if first then 1 else 0
    {
      first := false;
      ok := sock.WaitForBytesWritten();
      if !ok {
        return;
      }
    }
    return true;
  }

  lemma {:induction false} ConcatSnoc(ss: seq<Text>, k: nat)
    requires k < |ss|
    ensures Concat(ss[..k + 1]) == Concat(ss[..k]) + ss[k]
  {
    if k > 0 {
      ConcatSnoc(ss[1..], k - 1);
      assert ss[..k + 1][1..] == ss[1..][..k];
      assert ss[..k][1..] == ss[1..][..k - 1];
    } else {
      assert ss[..1][1..] == [];
    }
  }

  /**
   * A run of `WRITE_CHECKED` steps: each chunk through `writeSegmented`,
   * stopping at the first that fails.
   */
  method WriteChunks(sock: LocalSocket, chunks: seq<Text>, windows: bool) returns (ok: bool)
    modifies sock
    ensures ok ==> sock.output == old(sock.output) + Concat(chunks)
    ensures old(sock.output) <= sock.output
    ensures sock.faults >= old(sock.faults)
    ensures sock.faults == old(sock.faults) ==> ok
    ensures old(sock.writeSizes) <= sock.writeSizes
    ensures windows ==> Segmented(sock.writeSizes, |old(sock.writeSizes)|)
    ensures sock.inbound == old(sock.inbound)
  {
    var k := 0;
    while k < |chunks|
      invariant 0 <= k <= |chunks|
      invariant sock.output == old(sock.output) + Concat(chunks[..k])
      invariant sock.faults >= old(sock.faults)
      invariant old(sock.writeSizes) <= sock.writeSizes
      invariant windows ==> Segmented(sock.writeSizes, |old(sock.writeSizes)|)
      invariant sock.inbound == old(sock.inbound)
    {
      ghost var sizes := sock.writeSizes;
      ok := WriteSegmented(sock, chunks[k], windows);
      if windows {
        SegmentedJoin(old(sock.writeSizes), sizes, sock.writeSizes);
      }
      if !ok {
        return;
      }
      ConcatSnoc(chunks, k);
      k := k + 1;
    }
    assert chunks[..k] == chunks;
    return true;
  }

  /** `reportError`: a failure header whose `errorLength` is the message length, the message, then `finalize`. */
  method ReportError(sock: LocalSocket, responseType: byte, message: Text, items: int32, windows: bool)
    returns (ok: bool)
    modifies sock
    ensures ok ==> sock.output == old(sock.output) + ErrorResponse(responseType, message, items)
    ensures ok ==> sock.unflushed == 0
    ensures old(sock.output) <= sock.output
    ensures sock.faults >= old(sock.faults)
    ensures sock.faults == old(sock.faults) ==>
      sock.output == old(sock.output) + ErrorResponse(responseType, message, items) && ok
    ensures windows ==> Segmented(sock.writeSizes, |old(sock.writeSizes)|)
    ensures sock.inbound == old(sock.inbound)
  {
    var header := EncodeResponseHeader(
      ResponseHeader(PACKET_MAGIC, responseType, IPCS_FAILURE, items, ToUInt32(|message|)));
    ok := WriteChunks(sock, [header, message], windows);
    ConcatPair(header, message);
    if !ok {
      return;
    }
    ok := Finalize(sock);
  }

  /**
   * `readBlock`, with each read asking for the bytes still missing. It
   * follows `ReadLoop`, so it succeeds exactly when `size` bytes arrive
   * before a read error while the socket is connected, and then the buffer
   * holds the next `size` bytes of the stream.
   */
  method ReadBlock(sock: LocalSocket, size: nat) returns (ok: bool, buffer: seq<byte>)
    modifies sock
    ensures Block(ok, buffer, sock.inbound) == ReadLoop(old(sock.inbound), size, [])
    ensures sock.output == old(sock.output) && sock.unflushed == old(sock.unflushed)
    ensures sock.faults == old(sock.faults) && sock.writeSizes == old(sock.writeSizes)
  {
    buffer := [];
    while |buffer| < size
      invariant |buffer| <= size
      invariant ReadLoop(sock.inbound, size, buffer) == ReadLoop(old(sock.inbound), size, [])
      invariant sock.output == old(sock.output) && sock.unflushed == old(sock.unflushed)
      invariant sock.faults == old(sock.faults) && sock.writeSizes == old(sock.writeSizes)
      decreases (if sock.inbound.connected then 1 else 0), |sock.inbound.pending|, |sock.inbound.rx|
    {
      if !sock.Connected() {
        return false, buffer;
      }
      ReadStepProgress(sock.inbound, size - |buffer|);
      var r, got := sock.Read(size - |buffer|);
      if r < 0 {
        return false, buffer;
      }
      buffer := buffer + got;
    }
    return true, buffer;
  }

  /** `WAIT_FOR_DATA`. */
  method WaitForDataOn(sock: LocalSocket) returns (ready: bool)
    modifies sock
    ensures WaitResult(ready, sock.inbound) == WaitForData(old(sock.inbound))
    ensures sock.output == old(sock.output) && sock.unflushed == old(sock.unflushed)
    ensures sock.faults == old(sock.faults) && sock.writeSizes == old(sock.writeSizes)
  {
    if sock.BytesAvailable() > 0 {
      return true;
    }
    ready := sock.WaitForReadyRead();
  }

  /**
   * `readHeader`: reads the three header bytes and accepts them only with
   * the packet magic; `requestType` is the header's type byte.
   */
  method ReadHeader(sock: LocalSocket) returns (ok: bool, requestType: byte)
    modifies sock
    ensures var b := ReadLoop(old(sock.inbound), REQUEST_HEADER_SIZE, []);
      sock.inbound == b.rest
      && ok == (b.ok && DecodeRequestHeader(b.bytes).magic == PACKET_MAGIC)
      && (ok ==> requestType == DecodeRequestHeader(b.bytes).requestType)
    ensures sock.output == old(sock.output) && sock.unflushed == old(sock.unflushed)
    ensures sock.faults == old(sock.faults) && sock.writeSizes == old(sock.writeSizes)
  {
    var read, raw := ReadBlock(sock, REQUEST_HEADER_SIZE);
    if !read {
      return false, 0;
    }
    var header := DecodeRequestHeader(raw);
    if header.magic != PACKET_MAGIC {
      return false, 0;
    }
    return true, header.requestType;
  }

  /**
   * The reading half of `respondLoadData`: the descriptor, its checks, the
   * tag, and the path, as `ReadLoadRequest` says.
   */
  method ReceiveLoadRequest(sock: LocalSocket) returns (request: LoadRequest)
    modifies sock
    ensures Parse(request, sock.inbound) == ReadLoadRequest(old(sock.inbound))
    ensures sock.output == old(sock.output) && sock.unflushed == old(sock.unflushed)
    ensures sock.faults == old(sock.faults) && sock.writeSizes == old(sock.writeSizes)
  {
    var ready := WaitForDataOn(sock);
    if !ready {
      return Drop;
    }
    var read, raw := ReadBlock(sock, LOAD_DATA_REQUEST_DESCRIPTOR_SIZE);
    if !read {
      return Drop;
    }
    var d := DecodeLoadDataRequestDescriptor(raw);
    if d.magic != PACKET_MAGIC || d.requestType != REQUEST_LOAD_DATA_DESCRIPTOR {
      return Drop;
    }
    if d.tagLength < 1 {
      return Reject(INVALID_TAG_LENGTH);
    }
    ready := WaitForDataOn(sock);
    if !ready {
      return Drop;
    }
    var tag;
    read, tag := ReadBlock(sock, d.tagLength);
    if !read {
      return Drop;
    }
    request := ReceivePath(sock, d, tag);
  }

  /** The path stage of `respondLoadData`, as `ReadPath` says. */
  method ReceivePath(sock: LocalSocket, d: LoadDataRequestDescriptor, tag: Text) returns (request: LoadRequest)
    modifies sock
    ensures Parse(request, sock.inbound) == ReadPath(d, tag, old(sock.inbound))
    ensures sock.output == old(sock.output) && sock.unflushed == old(sock.unflushed)
    ensures sock.faults == old(sock.faults) && sock.writeSizes == old(sock.writeSizes)
  {
    match ModeOf(d.mode)
    case None =>
      return Reject(INVALID_LOAD_MODE);
    case Some(Interactive) =>
      return Call(LoadCall(tag, Interactive, [], d.loadOption));
    case Some(mode) =>
      if d.filePathLength == 0 {
        return Reject(INVALID_PATH_LENGTH);
      }
      var ready := WaitForDataOn(sock);
      if !ready {
        return Drop;
      }
      var read, path := ReadBlock(sock, d.filePathLength);
      if !read {
        return Drop;
      }
      return Call(LoadCall(tag, mode, path, d.loadOption));
  }

  /** The fixed chunks of one format entry, in the order `respondSupportedFormats` writes them. */
  function FormatChunks(f: FileFormatInfo): (r: seq<Text>)
    ensures Concat(r) == EncodeSupportedFormatResponseDescriptor(FormatDescriptor(f))
      + f.longDescription + f.shortDescription + f.tag
  {
    var e := EncodeSupportedFormatResponseDescriptor(FormatDescriptor(f));
    var head := [e, f.longDescription, f.shortDescription, f.tag];
    assert head[1..] == [f.longDescription, f.shortDescription, f.tag];
    ThreeConcat(f.longDescription, f.shortDescription, f.tag);
    AppendAssoc(e, f.longDescription + f.shortDescription, f.tag);
    AppendAssoc(e, f.longDescription, f.shortDescription);
    head
  }

  /** The chunks of one dataset, in the order `respondLoadData` writes them, up to its points. */
  function DatasetChunks(d: Dataset): (r: seq<Text>)
    ensures Concat(r) == EncodeLoadDataResponseDescriptor(DatasetDescriptor(d)) + Concat(Fields(d))
  {
    [EncodeLoadDataResponseDescriptor(DatasetDescriptor(d))] + Fields(d)
  }

  /** The service side of one local-socket connection. */
  class LocalSocketConnectionHandler {
    const loader: DataLoader
    /** `EDII_ABI_VERSION_MAJOR` and `EDII_ABI_VERSION_MINOR`. */
    const abiMajor: int32
    const abiMinor: int32
    /** Whether this is the Windows build, which segments its writes. */
    const windows: bool
    /** Every call made into the loader, in order. */
    ghost var calls: seq<LoadCall>

    constructor(loader: DataLoader, abiMajor: int32, abiMinor: int32, windows: bool)
      ensures this.loader == loader && this.abiMajor == abiMajor && this.abiMinor == abiMinor
      ensures this.windows == windows && calls == []
    {
      this.loader := loader;
      this.abiMajor := abiMajor;
      this.abiMinor := abiMinor;
      this.windows := windows;
      calls := [];
    }

    /** `respondABIVersion`: one ABI frame with type 6, status Success and the version pair. */
    method RespondABIVersion(sock: LocalSocket) returns (ok: bool)
      modifies sock
      ensures ok ==> sock.output == old(sock.output) + AbiResponse(abiMajor, abiMinor) && sock.unflushed == 0
      ensures old(sock.output) <= sock.output
      ensures sock.faults >= old(sock.faults)
      ensures sock.faults == old(sock.faults) ==>
        sock.output == old(sock.output) + AbiResponse(abiMajor, abiMinor) && ok
      ensures windows ==> Segmented(sock.writeSizes, |old(sock.writeSizes)|)
      ensures sock.inbound == old(sock.inbound)
    {
      ok := WriteSegmented(sock, AbiResponse(abiMajor, abiMinor), windows);
      if !ok {
        return;
      }
      ok := Finalize(sock);
    }

    /**
     * `respondSupportedFormats`: a header counting the formats, then per
     * format its descriptor, its three strings and, when it has more than one
     * load option, one option frame and label per option.
     */
    method RespondSupportedFormats(sock: LocalSocket) returns (ok: bool)
      modifies sock
      ensures ok ==> sock.output == old(sock.output) + FormatsResponse(loader.formats) && sock.unflushed == 0
      ensures old(sock.output) <= sock.output
      ensures sock.faults >= old(sock.faults)
      ensures sock.faults == old(sock.faults) ==>
        sock.output == old(sock.output) + FormatsResponse(loader.formats) && ok
      ensures windows ==> Segmented(sock.writeSizes, |old(sock.writeSizes)|)
      ensures sock.inbound == old(sock.inbound)
    {
      var fs := loader.formats;
      var header := SuccessHeader(RESPONSE_SUPPORTED_FORMAT_HEADER, |fs|);
      ok := WriteSegmented(sock, header, windows);
      if !ok {
        return;
      }
      ghost var head := sock.output;
      var k := 0;
      while k < |fs|
        invariant 0 <= k <= |fs|
        invariant sock.output == head + ConcatMap(fs[..k], FormatBytes)
        invariant sock.faults >= old(sock.faults)
        invariant old(sock.writeSizes) <= sock.writeSizes
        invariant windows ==> Segmented(sock.writeSizes, |old(sock.writeSizes)|)
        invariant sock.inbound == old(sock.inbound)
      {
        ghost var sizes := sock.writeSizes;
        ghost var before := sock.output;
        ok := WriteFormat(sock, fs[k]);
        if windows {
          SegmentedJoin(old(sock.writeSizes), sizes, sock.writeSizes);
        }
        AppendExtends(head, ConcatMap(fs[..k], FormatBytes));
        Extends(old(sock.output), head, before);
        Extends(old(sock.output), before, sock.output);
        if !ok {
          return;
        }
        ConcatMapSnoc(fs, FormatBytes, k);
        AppendAssoc(head, ConcatMap(fs[..k], FormatBytes), FormatBytes(fs[k]));
        k := k + 1;
      }
      ConcatMapAll(fs, FormatBytes);
      AppendAssoc(old(sock.output), header, ConcatMap(fs, FormatBytes));
      ok := Finalize(sock);
    }

    /** One format entry of `respondSupportedFormats`. */
    method WriteFormat(sock: LocalSocket, f: FileFormatInfo) returns (ok: bool)
      modifies sock
      ensures ok ==> sock.output == old(sock.output) + FormatBytes(f)
      ensures old(sock.output) <= sock.output
      ensures sock.faults >= old(sock.faults)
      ensures sock.faults == old(sock.faults) ==> ok
      ensures old(sock.writeSizes) <= sock.writeSizes
      ensures windows ==> Segmented(sock.writeSizes, |old(sock.writeSizes)|)
      ensures sock.inbound == old(sock.inbound)
    {
      ok := WriteChunks(sock, FormatChunks(f), windows);
      if !ok {
        return;
      }
      if |f.loadOptions| <= 1 {
        assert FormatBytes(f) == Concat(FormatChunks(f)) + [];
        return;
      }
      ghost var head, sizes := sock.output, sock.writeSizes;
      ok := WriteOptions(sock, f.loadOptions);
      if windows {
        SegmentedJoin(old(sock.writeSizes), sizes, sock.writeSizes);
      }
      Extends(old(sock.output), head, sock.output);
      AppendAssoc(old(sock.output), Concat(FormatChunks(f)), ConcatMap(f.loadOptions, OptionBytes));
    }

    /** The option frames of a format entry: each option's descriptor, then its label. */
    method WriteOptions(sock: LocalSocket, opts: seq<Text>) returns (ok: bool)
      modifies sock
      ensures ok ==> sock.output == old(sock.output) + ConcatMap(opts, OptionBytes)
      ensures old(sock.output) <= sock.output
      ensures sock.faults >= old(sock.faults)
      ensures sock.faults == old(sock.faults) ==> ok
      ensures old(sock.writeSizes) <= sock.writeSizes
      ensures windows ==> Segmented(sock.writeSizes, |old(sock.writeSizes)|)
      ensures sock.inbound == old(sock.inbound)
    {
      ghost var head := sock.output;
      ok := true;
      var j := 0;
      while j < |opts|
        invariant 0 <= j <= |opts|
        invariant sock.output == head + ConcatMap(opts[..j], OptionBytes)
        invariant sock.faults >= old(sock.faults)
        invariant old(sock.writeSizes) <= sock.writeSizes
        invariant windows ==> Segmented(sock.writeSizes, |old(sock.writeSizes)|)
        invariant sock.inbound == old(sock.inbound)
      {
        var o := opts[j];
        var frame := EncodeLoadOptionDescriptor(LoadOptionDescriptor(PACKET_MAGIC,
          RESPONSE_LOAD_OPTION_DESCRIPTOR, IPCS_SUCCESS, ToUInt32(|o|)));
        ghost var sizes := sock.writeSizes;
        ghost var before := sock.output;
        ok := WriteChunks(sock, [frame, o], windows);
        if windows {
          SegmentedJoin(old(sock.writeSizes), sizes, sock.writeSizes);
        }
        AppendExtends(head, ConcatMap(opts[..j], OptionBytes));
        Extends(old(sock.output), before, sock.output);
        if !ok {
          return;
        }
        ConcatPair(frame, o);
        ConcatMapSnoc(opts, OptionBytes, j);
        AppendAssoc(head, ConcatMap(opts[..j], OptionBytes), OptionBytes(o));
        j := j + 1;
      }
      ConcatMapAll(opts, OptionBytes);
    }

    /** One dataset of `respondLoadData`: descriptor, seven strings, points. */
    method WriteDataset(sock: LocalSocket, d: Dataset) returns (ok: bool)
      modifies sock
      ensures ok ==> sock.output == old(sock.output) + DatasetBytes(d)
      ensures old(sock.output) <= sock.output
      ensures sock.faults >= old(sock.faults)
      ensures sock.faults == old(sock.faults) ==> ok
      ensures sock.inbound == old(sock.inbound)
    {
      ok := WriteChunks(sock, DatasetChunks(d), windows);
      if !ok {
        return;
      }
      ghost var head := sock.output;
      var pts := d.datapoints;
      var k := 0;
      while k < |pts|
        invariant 0 <= k <= |pts|
        invariant sock.output == head + ConcatMap(pts[..k], PointBytes)
        invariant sock.faults >= old(sock.faults)
        invariant sock.inbound == old(sock.inbound)
      {
        ghost var before := sock.output;
        ok := WriteSegmented(sock, PointBytes(pts[k]), windows);
        AppendExtends(head, ConcatMap(pts[..k], PointBytes));
        Extends(old(sock.output), head, before);
        Extends(old(sock.output), before, sock.output);
        if !ok {
          return;
        }
        ConcatMapSnoc(pts, PointBytes, k);
        AppendAssoc(head, ConcatMap(pts[..k], PointBytes), PointBytes(pts[k]));
        k := k + 1;
      }
      ConcatMapAll(pts, PointBytes);
      AppendAssoc(old(sock.output), Concat(DatasetChunks(d)), ConcatMap(pts, PointBytes));
      ok := true;
    }

    /**
     * The failure branch of `respondLoadData`: the header is written without
     * checking the outcome, then the message in one unsegmented write, then
     * `finalize`.
     */
    method ReportLoadFailure(sock: LocalSocket, error: Text, items: int32) returns (ok: bool)
      modifies sock
      ensures old(sock.output) <= sock.output
      ensures sock.faults >= old(sock.faults)
      ensures sock.faults == old(sock.faults) ==>
        sock.output == old(sock.output) + ErrorResponse(RESPONSE_LOAD_DATA_HEADER, error, items) && ok
      ensures sock.inbound == old(sock.inbound)
    {
      var header := EncodeResponseHeader(ResponseHeader(PACKET_MAGIC, RESPONSE_LOAD_DATA_HEADER,
        IPCS_FAILURE, items, ToUInt32(|error|)));
      var _ := WriteSegmented(sock, header, windows);
      var _ := sock.Write(error);
      ok := Finalize(sock);
    }

    /** The success branch of `respondLoadData`: a header counting the datasets, then each dataset. */
    method RespondLoaded(sock: LocalSocket, ds: seq<Dataset>) returns (ok: bool)
      modifies sock
      ensures ok ==> sock.output == old(sock.output) + LoadSuccessResponse(ds) && sock.unflushed == 0
      ensures old(sock.output) <= sock.output
      ensures sock.faults >= old(sock.faults)
      ensures sock.faults == old(sock.faults) ==> ok
      ensures sock.inbound == old(sock.inbound)
    {
      var header := SuccessHeader(RESPONSE_LOAD_DATA_HEADER, |ds|);
      ok := WriteSegmented(sock, header, windows);
      if !ok {
        return;
      }
      ghost var head := sock.output;
      var k := 0;
      while k < |ds|
        invariant 0 <= k <= |ds|
        invariant sock.output == head + ConcatMap(ds[..k], DatasetBytes)
        invariant sock.faults >= old(sock.faults)
        invariant sock.inbound == old(sock.inbound)
      {
        ghost var before := sock.output;
        ok := WriteDataset(sock, ds[k]);
        AppendExtends(head, ConcatMap(ds[..k], DatasetBytes));
        Extends(old(sock.output), head, before);
        Extends(old(sock.output), before, sock.output);
        if !ok {
          return;
        }
        ConcatMapSnoc(ds, DatasetBytes, k);
        AppendAssoc(head, ConcatMap(ds[..k], DatasetBytes), DatasetBytes(ds[k]));
        k := k + 1;
      }
      ConcatMapAll(ds, DatasetBytes);
      AppendAssoc(old(sock.output), header, ConcatMap(ds, DatasetBytes));
      ok := Finalize(sock);
    }

    /**
     * `respondLoadData`: reads and validates the request, drops it silently or
     * refuses it with a failure response as `ReadLoadRequest` decides, and
     * otherwise makes exactly one loader call and answers with its datasets
     * or its error message.
     */
    method RespondLoadData(sock: LocalSocket, items: int32) returns (ok: bool)
      modifies sock, this
      ensures var p := ReadLoadRequest(old(sock.inbound));
        sock.inbound == p.rest
        && calls == old(calls) + (if p.request.Call? then [p.request.call] else [])
        && (sock.faults == old(sock.faults) ==> sock.output == old(sock.output) + LoadReply(p.request, loader, items))
        && (p.request.Drop? ==> sock.output == old(sock.output))
        && (ok ==> p.request.Call?)
        && (p.request.Call? && sock.faults == old(sock.faults) ==> ok)
        && (ok && loader.load(p.request.call).success ==>
              sock.output == old(sock.output) + LoadReply(p.request, loader, items))
      ensures old(sock.output) <= sock.output
      ensures sock.faults >= old(sock.faults)
    {
      var request := ReceiveLoadRequest(sock);
      match request
      case Drop =>
        return false;
      case Reject(message) =>
        var _ := ReportError(sock, RESPONSE_LOAD_DATA_HEADER, message, items, windows);
        return false;
      case Call(call) =>
        calls := calls + [call];
        var result := loader.load(call);
        if !result.success {
          ok := ReportLoadFailure(sock, result.error, items);
          return;
        }
        ok := RespondLoaded(sock, result.data);
    }

    /**
     * `handleConnection`: waits for data, reads the header, and answers a
     * formats, load or ABI request; anything else ends the connection
     * without a reply.
     */
    method HandleConnection(sock: LocalSocket, items: int32)
      modifies sock, this
      ensures var e := Converse(old(sock.inbound), loader, abiMajor, abiMinor, items);
        sock.inbound == e.rest
        && calls == old(calls) + (if e.call.Some? then [e.call.value] else [])
        && (sock.faults == old(sock.faults) ==> sock.output == old(sock.output) + e.sent)
        && (e.sent == [] ==> sock.output == old(sock.output))
      ensures old(sock.output) <= sock.output
    {
      var ready := WaitForDataOn(sock);
      if !ready {
        return;
      }
      var ok, requestType := ReadHeader(sock);
      if !ok {
        return;
      }
      if requestType == REQUEST_SUPPORTED_FORMATS {
        var _ := RespondSupportedFormats(sock);
      } else if requestType == REQUEST_LOAD_DATA {
        var _ := RespondLoadData(sock, items);
      } else if requestType == REQUEST_ABI_VERSION {
        var _ := RespondABIVersion(sock);
      }
    }
  }
}
