# EDII data-import service: a verified model

EDII is a small service that loads electrophoretic and chromatographic
signals from files on behalf of client programs. Clients reach it in two
ways:

- a local socket that speaks a packed binary protocol;
- a D-Bus interface that exchanges structured records.

Both transports forward a request to the same data loader. The loader picks
a format plugin by its tag, and the plugin reads the signals. This project
models, in Dafny:

- **The binary protocol.** The eight packed frame layouts and their
  little-endian field encoding (`Bytes`, `Wire`). The per-connection
  handler (`ConnectionHandler`) works on a socket object (`Socket`): it reads
  the three-byte header, checks the magic, dispatches on the request type,
  validates a load request and writes length-prefixed frames through the
  segmented writer. The response formats are in `Responses`, together with a
  reference decoder, so that every response can be shown to read back as
  what the loader produced.
- **The D-Bus adapter.** The record types and their `<<` / `>>` field order
  (`DBusTypes`). The proxy that turns loader results into records
  (`DBusProxy`). The interface slots (`DBusInterface`). The loader is a value
  (`Loader`): a list of formats and a total function from a call to a result.
- **The format plugins' text parsing.**
  - ASC text files (`AscText`, `AscHeader`, `AscTraces`): line reading,
    key/value splitting, splitting with and without a decimal delimiter,
    the header context, the `EZChrom_*` entry handlers and the trace walk.
  - CSV tables (`CsvLoader`, `CsvUtil`, `CsvSupport`): byte-order marks,
    blank-line skipping, header handling, row acceptance up to the first bad
    row, decimal-separator sanitising, dialog validation and option dispatch.
  - EZChrom files (`EZChromSupport`): duplicate-channel rejection, channel
    selection and the aggregation of several files.

`Strings` holds the text operations the plugins share (`find`, `split`,
`tolower`, `std::stoi`, `QFileInfo::fileName`). `Plugin` holds the record a
plugin returns.

Where the source changes state in place, the model does too. The socket and
the connection handler are classes whose methods modify them, and the ASC
input stream is a class. Loops are methods with invariants, each proved
equal to a specification function. The properties are then proved about
those functions.

Modelling conventions:

- Text on the binary protocol is the sequence of its UTF-8 bytes, so every
  length is a byte count. Plugin text is `string`.
- A double is an uninterpreted 64-bit pattern on the wire and in D-Bus records, and
  a `real` in the plugins. Every numeric conversion (`strToDbl`,
  `readValue`, the ASC point scaling) is a parameter.
- Dialogs are sequences of answers. An answer past the end of the sequence
  counts as a cancel.
- What a peer sends is a schedule of arrivals: byte chunks, silences and read
  errors. Whether a write is accepted whole and whether a flush succeeds are
  nondeterministic. Each socket counts the faults it has met, so a contract
  can say what happens when there were none.
- The host byte order is little-endian.

## Model

| member | source | states |
|---|---|---|
| Bytes.ToUInt32 | src/core/src/localsocketconnectionhandler.cpp:304-311 | A size stored in an unsigned 32-bit field keeps its low 32 bits; a size below 2^32 is stored unchanged. |
| Bytes.ToInt32 | src/core/src/localsocketconnectionhandler.cpp:288 | A count stored in the signed `items` field is its low 32 bits read as two's complement; a count below 2^31 is stored unchanged. |
| Bytes.EncodeU16 | include/edii_ipc_network.h:48 | A 16-bit field occupies two bytes. |
| Bytes.EncodeU32 | include/edii_ipc_network.h:59 | An unsigned 32-bit field occupies four bytes. |
| Bytes.EncodeI32 | include/edii_ipc_network.h:58 | A signed 32-bit field occupies four bytes. |
| Bytes.EncodeF64 | include/edii_ipc_network.h:111-115 | A double occupies eight bytes. |
| Bytes.DecodeEncodeLE | include/edii_ipc_network.h:4-10 | Decoding the little-endian image of a number that fits in `n` bytes gives the number back. |
| Bytes.EncodeDecodeLE | include/edii_ipc_network.h:4-10 | Every byte string is the image of its value, so the codec is a bijection. |
| Bytes.U16RoundTrip | include/edii_ipc_network.h:48 | A 16-bit field reads back as written, and every two bytes are some value's image. |
| Bytes.U32RoundTrip | include/edii_ipc_network.h:59 | The same for unsigned 32-bit fields. |
| Bytes.I32RoundTrip | include/edii_ipc_network.h:58 | The same for signed 32-bit fields, negative values included. |
| Bytes.F64RoundTrip | include/edii_ipc_network.h:111-115 | The same for the eight bytes of a double. |
| Wire.EncodePrologue | include/edii_ipc_network.h:53-56 | Every response frame opens with the magic in two bytes, then the type byte, then the status byte. |
| Wire.EncodeRequestHeader | include/edii_ipc_network.h:47-51 | A request header is 3 bytes and starts with its magic. |
| Wire.EncodeResponseHeader | include/edii_ipc_network.h:53-61 | A response header is 12 bytes and starts with its magic. |
| Wire.EncodeLoadDataRequestDescriptor | include/edii_ipc_network.h:63-72 | A load request descriptor is 16 bytes and starts with its magic. |
| Wire.EncodeSupportedFormatResponseDescriptor | include/edii_ipc_network.h:74-84 | A format descriptor is 20 bytes and starts with its magic. |
| Wire.EncodeLoadOptionDescriptor | include/edii_ipc_network.h:86-93 | A load option descriptor is 8 bytes and starts with its magic. |
| Wire.EncodeLoadDataResponseDescriptor | include/edii_ipc_network.h:95-109 | A dataset descriptor is 36 bytes and starts with its magic. |
| Wire.EncodeDatapoint | include/edii_ipc_network.h:111-115 | A data point is 16 bytes. |
| Wire.EncodeResponseABIVersion | include/edii_ipc_network.h:117-125 | An ABI version frame is 12 bytes and starts with its magic. |
| Wire.MagicLeads | include/edii_ipc_network.h:18 | The magic in the first two bytes reads back unchanged; 0x091E is sent as 1E 09. |
| Wire.RequestHeaderRoundTrip | include/edii_ipc_network.h:47-51 | Decoding an encoded request header gives every field back, and every 3 bytes decode to a header that encodes to them. |
| Wire.ResponseHeaderRoundTrip | include/edii_ipc_network.h:53-61 | The same for response headers. |
| Wire.LoadDataRequestDescriptorRoundTrip | include/edii_ipc_network.h:63-72 | The same for load request descriptors. |
| Wire.SupportedFormatResponseDescriptorRoundTrip | include/edii_ipc_network.h:74-84 | The same for format descriptors. |
| Wire.LoadOptionDescriptorRoundTrip | include/edii_ipc_network.h:86-93 | The same for load option descriptors. |
| Wire.LoadDataResponseDescriptorRoundTrip | include/edii_ipc_network.h:95-109 | The same for dataset descriptors. |
| Wire.DatapointRoundTrip | include/edii_ipc_network.h:111-115 | The same for data points. |
| Wire.ResponseABIVersionRoundTrip | include/edii_ipc_network.h:117-125 | The same for ABI version frames. |
| Socket.ReadStep | src/core/src/localsocketconnectionhandler.cpp:121 | A read stores at most the bytes asked for and returns their count, or -1. |
| Socket.ReadStepKeepsStream | src/core/src/localsocketconnectionhandler.cpp:121 | A read loses no byte: what it stores is the front of what the peer still has to deliver. |
| Socket.ReadStepProgress | src/core/src/localsocketconnectionhandler.cpp:117-127 | A read never reconnects, and while connected it consumes a buffered byte or an arrival. |
| Socket.ReadStepReachable | src/core/src/localsocketconnectionhandler.cpp:118-125 | A read that returns a count stored bytes from before the first read error; a read returning -1, or finding the peer gone, had nothing left. |
| Socket.WaitStep | src/core/src/localsocketconnectionhandler.cpp:37-43 | Waiting loses no byte; readiness implies a connected socket; a wait never reconnects. |
| Socket.LocalSocket.constructor | src/core/src/localsocketconnectionhandler.cpp:159-164 | A fresh connected socket with nothing buffered, written or counted as a fault. |
| Socket.LocalSocket.BytesAvailable | src/core/src/localsocketconnectionhandler.cpp:38 | The number of buffered bytes. |
| Socket.LocalSocket.Read | src/core/src/localsocketconnectionhandler.cpp:121 | A read behaves as `ReadStep` and changes nothing on the writing side. |
| Socket.LocalSocket.WaitForReadyRead | src/core/src/localsocketconnectionhandler.cpp:39 | A wait behaves as `WaitStep` and changes nothing on the writing side. |
| Socket.LocalSocket.Write | src/core/src/localsocketconnectionhandler.cpp:79-94 | A write appends an accepted prefix of the data to the output and to the unflushed count; anything short of the whole is counted as a fault. |
| Socket.LocalSocket.WaitForBytesWritten | src/core/src/localsocketconnectionhandler.cpp:11 | A successful wait flushes some bytes, or there were none left; a failed wait flushes nothing and is a fault. |
| Socket.LocalSocket.BytesToWrite | src/core/src/localsocketconnectionhandler.cpp:13 | The number of bytes written but not yet flushed. |
| ConnectionHandler.ReadLoop | src/core/src/localsocketconnectionhandler.cpp:112-130 | The corrected read loop never holds more than `size` bytes, and holds exactly `size` when it succeeds. |
| ConnectionHandler.ReadLoopFacts | src/core/src/localsocketconnectionhandler.cpp:115-127 | The loop only appends to what it has read, and what it appends is the front of the stream. |
| ConnectionHandler.ReadLoopSucceeds | src/core/src/localsocketconnectionhandler.cpp:117-127 | A block is read exactly when enough bytes arrive, before the first read error, while the socket is connected. |
| ConnectionHandler.ReadLoopAsWritten | src/core/src/localsocketconnectionhandler.cpp:121 | The loop as written keeps what it read and, when it succeeds, holds at least `size` bytes, possibly more. |
| ConnectionHandler.ReadBlockOverrun | src/core/src/localsocketconnectionhandler.cpp:121 | A header arriving as one byte and then four is read by the loop as written into four bytes, consuming the first byte of the next frame. |
| ConnectionHandler.ReadBlockExact | src/core/src/localsocketconnectionhandler.cpp:112-130 | The same arrivals, read by the corrected loop, give exactly the three header bytes and leave the next frame intact. |
| ConnectionHandler.WaitForData | src/core/src/localsocketconnectionhandler.cpp:37-43 | `WAIT_FOR_DATA` loses no byte and succeeds at once when data is already buffered. |
| ConnectionHandler.ModeOf | include/edii_ipc_network.h:41-45 | The load mode codes are Interactive 1, Hint 2 and File 3, and no other code is a mode. |
| ConnectionHandler.ReadBlockSplits | src/core/src/localsocketconnectionhandler.cpp:112-130 | A block read from scratch is the next bytes of the stream, and the rest of the stream follows it. |
| ConnectionHandler.ReadPathCall | src/core/src/localsocketconnectionhandler.cpp:233-257 | A loader call carries the tag, the option and the descriptor's mode; a Hint or File call carries a path of exactly the announced non-zero length, an Interactive call none; only the path is consumed. |
| ConnectionHandler.ReadTagCall | src/core/src/localsocketconnectionhandler.cpp:218-257 | A loader call follows a descriptor with the magic and type 3 and a non-zero tag length; exactly the tag and the path are consumed. |
| ConnectionHandler.ReadLoadRequestCall | src/core/src/localsocketconnectionhandler.cpp:205-270 | The loader is called only for a request that arrived whole: a valid descriptor, then exactly the tag and path it announces; nothing more is consumed. |
| ConnectionHandler.ReadPathRejects | src/core/src/localsocketconnectionhandler.cpp:233-257 | The path stage refuses only with "Invalid file path length" or "Invalid load mode". |
| ConnectionHandler.ReadTagRejects | src/core/src/localsocketconnectionhandler.cpp:218-257 | The tag stage refuses only with one of the three messages of `respondLoadData`. |
| ConnectionHandler.RejectMessages | src/core/src/localsocketconnectionhandler.cpp:205-257 | A refused load request is refused with one of the three messages of `respondLoadData`. |
| ConnectionHandler.LoadRequestValidation | src/core/src/localsocketconnectionhandler.cpp:214-257 | The checks come in order: a bad magic or type is dropped silently and a zero tag length is refused, both before anything more is read; a tag that does not arrive ends the request without an answer; on every stream whose tag arrives, an unknown mode is refused with "Invalid load mode", and a Hint or File request with a zero path length is refused with "Invalid file path length", each leaving the stream just after the tag; a tag already buffered whole always arrives. |
| ConnectionHandler.LoadReply | src/core/src/localsocketconnectionhandler.cpp:259-331 | A load request gets no reply exactly when it is dropped. |
| ConnectionHandler.ConverseAnswers | src/core/src/localsocketconnectionhandler.cpp:159-183 | A reply is sent only to a header with the magic and request type 1, 2 or 4. The reference decoder reads from it the formats as announced, the ABI version, or the loader's datasets or error message. |
| ConnectionHandler.WriteSegmented | src/core/src/localsocketconnectionhandler.cpp:72-96 | Nothing beyond the payload is sent, and success means exactly the payload was sent. Without faults the write succeeds. On Windows no write carries more than 4095 bytes; elsewhere there is one write, and none for an empty payload. |
| ConnectionHandler.Finalize | src/core/src/localsocketconnectionhandler.cpp:8-15 | On success every written byte is flushed; without faults it succeeds; nothing is written. |
| ConnectionHandler.WriteChunks | src/core/src/localsocketconnectionhandler.cpp:45-49 | Checked writes in a row send exactly the chunks, in order, when they succeed, and stop at the first failure. |
| ConnectionHandler.ReportError | src/core/src/localsocketconnectionhandler.cpp:98-110 | Without faults the output gains exactly a failure header, whose error length is the message's, and then the message. |
| ConnectionHandler.AsWrittenAgrees | src/core/src/localsocketconnectionhandler.cpp:112-130 | The loop as written gives the same as the corrected loop exactly when no read returns more than the bytes still missing (`ReadsFit`); otherwise it holds more than `size` bytes. |
| ConnectionHandler.ReadBlock | src/core/src/localsocketconnectionhandler.cpp:112-130 | `readBlock` follows the corrected loop: it succeeds exactly when `size` bytes arrive in time, and then holds the next `size` bytes of the stream. |
| ConnectionHandler.WaitForDataOn | src/core/src/localsocketconnectionhandler.cpp:37-43 | The socket's wait follows `WaitForData` and writes nothing. |
| ConnectionHandler.ReadHeader | src/core/src/localsocketconnectionhandler.cpp:132-151 | The header is accepted exactly when three bytes arrive and carry the magic; the request type is its type byte. |
| ConnectionHandler.ReceiveLoadRequest | src/core/src/localsocketconnectionhandler.cpp:199-257 | The reading half of `respondLoadData` consumes and decides as `ReadLoadRequest` does, and writes nothing. |
| ConnectionHandler.ReceivePath | src/core/src/localsocketconnectionhandler.cpp:233-257 | The path stage consumes and decides as `ReadPath` does, and writes nothing. |
| ConnectionHandler.FormatChunks | src/core/src/localsocketconnectionhandler.cpp:345-367 | A format entry is its descriptor, then the long description, the short description and the tag. |
| ConnectionHandler.DatasetChunks | src/core/src/localsocketconnectionhandler.cpp:293-320 | A dataset entry is its descriptor, then its seven strings in protocol order. |
| ConnectionHandler.LocalSocketConnectionHandler.constructor | src/core/src/localsocketconnectionhandler.cpp:153-157 | A handler over the given loader and ABI version that has made no loader call. |
| ConnectionHandler.LocalSocketConnectionHandler.RespondABIVersion | src/core/src/localsocketconnectionhandler.cpp:185-197 | Without faults the output gains exactly one ABI frame, type 6 and status Success, carrying the version. |
| ConnectionHandler.LocalSocketConnectionHandler.RespondSupportedFormats | src/core/src/localsocketconnectionhandler.cpp:334-383 | Without faults the output gains exactly a header counting the formats, then each format in loader order, with option frames only for formats that have more than one option. |
| ConnectionHandler.LocalSocketConnectionHandler.WriteFormat | src/core/src/localsocketconnectionhandler.cpp:345-380 | One format entry is sent whole on success. |
| ConnectionHandler.LocalSocketConnectionHandler.WriteOptions | src/core/src/localsocketconnectionhandler.cpp:369-380 | The option frames are sent whole on success, each option's descriptor followed by its label, in order. |
| ConnectionHandler.LocalSocketConnectionHandler.WriteDataset | src/core/src/localsocketconnectionhandler.cpp:292-330 | One dataset is sent whole on success: its descriptor, its seven strings and its points in order. |
| ConnectionHandler.LocalSocketConnectionHandler.ReportLoadFailure | src/core/src/localsocketconnectionhandler.cpp:273-284 | Without faults the output gains exactly a failure header for the loader's message, then the message. |
| ConnectionHandler.LocalSocketConnectionHandler.RespondLoaded | src/core/src/localsocketconnectionhandler.cpp:286-331 | On success the output gains exactly a header counting the datasets, then each dataset. |
| ConnectionHandler.LocalSocketConnectionHandler.RespondLoadData | src/core/src/localsocketconnectionhandler.cpp:199-332 | Reading follows `ReadLoadRequest`. A dropped request writes nothing. The loader is called once, and only for a valid request. Without faults the reply is the refusal, or the loader's datasets or error. |
| ConnectionHandler.LocalSocketConnectionHandler.HandleConnection | src/core/src/localsocketconnectionhandler.cpp:159-183 | The connection follows `Converse`: the loader calls made and, without faults, the bytes sent; no reply means nothing written. |
| Responses.ErrorResponse | src/core/src/localsocketconnectionhandler.cpp:98-110 | A failure response is a 12-byte header with status Failure and the message's length, followed by exactly the message. |
| Responses.AbiResponse | src/core/src/localsocketconnectionhandler.cpp:185-197 | The ABI response is one 12-byte frame. |
| Responses.SuccessHeader | src/core/src/localsocketconnectionhandler.cpp:286-290 | A success header is 12 bytes. |
| Responses.PointBytes | src/core/src/localsocketconnectionhandler.cpp:322-328 | A point is sent as 16 bytes. |
| Responses.Fields | src/core/src/localsocketconnectionhandler.cpp:313-320 | A dataset sends seven strings. |
| Responses.AnnouncedOptions | src/core/src/localsocketconnectionhandler.cpp:356-359 | The announced option count is the count when there is more than one option, else zero. |
| Responses.ParsePointRoundTrip | include/edii_ipc_network.h:111-115 | A client reads a sent point back, and the bytes after it are left alone. |
| Responses.ParsePointsRoundTrip | src/core/src/localsocketconnectionhandler.cpp:322-328 | A client reads the sent points back in order. |
| Responses.ParseDatasetBodyRoundTrip | src/core/src/localsocketconnectionhandler.cpp:296-330 | After its descriptor, a dataset's strings and points read back as sent. |
| Responses.ParseDatasetRoundTrip | src/core/src/localsocketconnectionhandler.cpp:296-330 | A whole dataset entry reads back as the dataset. |
| Responses.LoadSuccessRoundTrip | src/core/src/localsocketconnectionhandler.cpp:286-331 | A client reads back exactly the datasets the loader produced, in order. |
| Responses.ErrorRoundTrip | src/core/src/localsocketconnectionhandler.cpp:274-284 | A client reads back exactly the failure message, whatever the unset `items` field holds. |
| Responses.ParseOptionRoundTrip | src/core/src/localsocketconnectionhandler.cpp:369-380 | A sent option label reads back. |
| Responses.ParseOptionsRoundTrip | src/core/src/localsocketconnectionhandler.cpp:369-380 | Sent option labels read back in order. |
| Responses.ParseFormatBodyRoundTrip | src/core/src/localsocketconnectionhandler.cpp:345-381 | After its descriptor, a format's strings and options read back as announced. |
| Responses.ParseFormatRoundTrip | src/core/src/localsocketconnectionhandler.cpp:345-381 | A whole format entry reads back as the format as announced. |
| Responses.FormatsRoundTrip | src/core/src/localsocketconnectionhandler.cpp:334-383 | A client reads back every format in loader order, with its descriptions and tag intact. Option labels survive only for a format with more than one. |
| Responses.ResponsesStartWithMagic | src/core/src/localsocketconnectionhandler.cpp:32-35 | Every response opens with the packet magic. |
| DBusTypes.UnmarshalElements | include/edii_ipc_qtdbus.h:120-131 | Reading elements never grows the argument. |
| DBusTypes.UnmarshalArray | include/edii_ipc_qtdbus.h:120-131 | Reading a vector consumes at least its array markers. |
| DBusTypes.UnmarshalDatapoint | include/edii_ipc_qtdbus.h:37-45 | Reading a point consumes something. |
| DBusTypes.UnmarshalData | include/edii_ipc_qtdbus.h:84-98 | Reading a record consumes something. |
| DBusTypes.UnmarshalFormat | include/edii_ipc_qtdbus.h:235-245 | Reading a format consumes something. |
| DBusTypes.UnmarshalFreshFormat | include/edii_ipc_qtdbus.h:255-281 | Reading a format into a fresh record consumes something. |
| DBusTypes.ReadElements | include/edii_ipc_qtdbus.h:120-131 | The `>>` loop appends elements until the end of the array, as `UnmarshalElements` says. |
| DBusTypes.ElementsRoundTrip | include/edii_ipc_qtdbus.h:120-131 | Elements written and read back are appended, in order, to the vector read into. |
| DBusTypes.ArrayRoundTrip | include/edii_ipc_qtdbus.h:108-132 | A vector written and read back gives the target's old elements followed by the written ones. |
| DBusTypes.DatapointRoundTrip | include/edii_ipc_qtdbus.h:27-45 | `Datapoint` is written x then y and read back unchanged. |
| DBusTypes.DataRoundTrip | include/edii_ipc_qtdbus.h:68-98 | `Data` reads back field by field in the order it was written. |
| DBusTypes.DataPackRoundTrip | include/edii_ipc_qtdbus.h:152-172 | A pack read back into a pack has the written flag and error, and the written datasets after the ones it held. |
| DBusTypes.DataPackIdentity | include/edii_ipc_qtdbus.h:141-172 | Read into a default pack, a written pack comes back unchanged. |
| DBusTypes.FormatRoundTrip | include/edii_ipc_qtdbus.h:223-245 | A format read back into a record has the written descriptions and tag, and the written options after the ones it held. |
| DBusTypes.FreshFormatRoundTrip | include/edii_ipc_qtdbus.h:255-281 | A format read into a fresh record comes back unchanged. |
| DBusTypes.DataVecRoundTrip | include/edii_ipc_qtdbus.h:108-132 | `DataVec >>` appends the written datasets, in order. |
| DBusTypes.FormatVecRoundTrip | include/edii_ipc_qtdbus.h:255-281 | `SupportedFileFormatVec >>` appends the written formats, in order. |
| DBusTypes.ABIVersionRoundTrip | include/edii_ipc_qtdbus.h:295-317 | `ABIVersion` is written major then minor and read back unchanged. |
| DBusProxy.ConvertData | src/core/src/dbusipcproxy.cpp:72-91 | The copy loop builds the record of a dataset, all strings and points copied. |
| DBusProxy.OnLoadData | src/core/src/dbusipcproxy.cpp:50-93 | The pack is filled from the loader's answer for the dispatched call. |
| DBusProxy.OnSupportedFileFormats | src/core/src/dbusipcproxy.cpp:36-48 | One record per format is appended, in loader order. |
| DBusProxy.CallForDispatch | src/core/src/dbusipcproxy.cpp:54-64 | The mode decides the entry point. Hint and File pass the mode parameter as the path; the tag and option always pass through. |
| DBusProxy.DataRoundTrip | src/core/src/dbusipcproxy.cpp:69-92 | A client rebuilds from the records exactly the datasets the loader produced. |
| DBusProxy.FilledFromDefault | src/core/src/dbusipcproxy.cpp:66-92 | Starting from a default pack, a failure carries the loader's message and no data. A success carries every dataset and keeps "Empty response" as its error. |
| DBusProxy.FailureKeepsData | src/core/src/dbusipcproxy.cpp:66-68 | A failed load sets the error and leaves the datasets already in the pack as they were. |
| DBusProxy.TransportsAgree | src/core/src/dbusipcproxy.cpp:50-93 | The socket and D-Bus clients learn the same outcome: the same success flag, and the same datasets or message. |
| DBusProxy.OptionsDiffer | src/core/src/dbusipcproxy.cpp:36-48 | D-Bus sends every load option. It agrees with the socket's announcement exactly when the count is not one. |
| DBusProxy.FieldOrderDiffers | include/edii_ipc_qtdbus.h:68-82 | D-Bus writes path, dataId, name while the socket writes name, dataId, path, so the layouts agree exactly when name and path are equal. |
| DBusInterface.AbiVersionAgrees | src/core/src/dbus/dbusinterface.cpp:12-15 | D-Bus and the socket report the same major and minor version. |
| DBusInterface.LoadData | src/core/src/dbus/dbusinterface.cpp:17-24 | An interactive load with an empty mode parameter, filled into a default pack. |
| DBusInterface.LoadDataHint | src/core/src/dbus/dbusinterface.cpp:26-33 | A Hint load passing the hint, filled into a default pack. |
| DBusInterface.LoadDataFile | src/core/src/dbus/dbusinterface.cpp:35-42 | A File load passing the path, filled into a default pack. |
| DBusInterface.SupportedFileFormats | src/core/src/dbus/dbusinterface.cpp:44-51 | One record per loader format, in order, starting from an empty vector. |
| DBusInterface.LoadDataOutcome | src/core/src/dbus/dbusinterface.cpp:17-24 | An interactive client receives the loader's success flag, with its datasets and "Empty response", or its message and no data. |
| Strings.Pieces | src/plugins/ASCSupport/src/ascsupport.cpp:594-607 | Splitting always yields at least one piece. |
| Strings.JoinPieces | src/plugins/ASCSupport/src/ascsupport.cpp:594-607 | Joining the pieces with the delimiter gives the text back. |
| Strings.PiecesShape | src/plugins/ASCSupport/src/ascsupport.cpp:594-607 | There is one piece more than there are delimiters, and no piece holds one. |
| Strings.Split | src/plugins/ASCSupport/src/ascsupport.cpp:594-607 | The `do`/`while` loop of `split` yields exactly the pieces. |
| Strings.BaseName | src/plugins/EZChromSupport/src/ezchromsupport.cpp:202-204 | The file name is the end of the path after its last '/', and holds no '/'. |
| Strings.Convert | src/plugins/ASCSupport/src/ascsupport.cpp:680-681 | Converting pieces never yields more values than pieces. |
| Strings.ConvertMeaning | src/plugins/ASCSupport/src/ascsupport.cpp:680-681 | One value per piece, in order, up to the first piece that fails to convert, whose error is reported; with no error every piece gave a value. |
| Strings.AppendConverted | src/plugins/ASCSupport/src/ascsupport.cpp:680-681 | The handlers' loops append the converted values, as `Convert` says. |
| Strings.StrToInt | src/plugins/ASCSupport/src/ascsupport.cpp:174-188 | An accepted integer fits an `int`. |
| Strings.IntTextRoundTrip | src/plugins/CSVSupport/src/csvsupport.cpp:64 | The decimal text of an `int` reads back as the number. |
| AscText.SplitKeyValueMeaning | src/plugins/ASCSupport/src/ascsupport.cpp:219-234 | An entry splits exactly when it holds the delimiter. It is then the key text, the delimiter and the value, with no earlier delimiter, and the key is lower-cased. |
| AscText.Extract | src/plugins/ASCSupport/src/ascsupport.cpp:614-628 | A segment runs up to the second delimiter when there is one; otherwise it is the whole text. |
| AscText.ExtractSegment | src/plugins/ASCSupport/src/ascsupport.cpp:614-628 | The search loop gives the segment `Extract` describes. |
| AscText.DecimalTurn | src/plugins/ASCSupport/src/ascsupport.cpp:635-651 | One turn of the loop emits the segments and continues with the text that `DecimalStep` describes. |
| AscText.DecimalStep | src/plugins/ASCSupport/src/ascsupport.cpp:633-654 | One pass emits at least one segment, and what it continues with is shorter than its input. |
| AscText.DecimalStepJoin | src/plugins/ASCSupport/src/ascsupport.cpp:633-654 | One pass loses nothing: its segments, a delimiter and what it continues with make up the text. |
| AscText.DecimalSegments | src/plugins/ASCSupport/src/ascsupport.cpp:630-655 | Splitting at a decimal delimiter yields at least one segment. |
| AscText.DecimalSegmentsShape | src/plugins/ASCSupport/src/ascsupport.cpp:633-654 | Every segment holds at most one delimiter, the decimal point of its number. |
| AscText.DecimalPieces | src/plugins/ASCSupport/src/ascsupport.cpp:609-655 | `splitDecimal` always yields at least one piece. |
| AscText.SplitDecimal | src/plugins/ASCSupport/src/ascsupport.cpp:609-655 | With a delimiter other than the decimal point the result is the plain split; otherwise it is the decimal segments. |
| AscText.JoinDecimalSegments | src/plugins/ASCSupport/src/ascsupport.cpp:609-655 | Joining the decimal segments with the delimiter gives the text back. |
| AscText.InStream.constructor | src/plugins/ASCSupport/src/ascsupport.cpp:853-856 | A stream over the text, at its start, with the end not yet met. |
| AscText.InStream.Peek | src/plugins/ASCSupport/src/ascsupport.cpp:539 | A peek shows the next character without taking it; at the end it shows none and sets the end flag. |
| AscText.InStream.Get | src/plugins/ASCSupport/src/ascsupport.cpp:544 | A get takes the next character and moves on by one. |
| AscText.LineAt | src/plugins/ASCSupport/src/ascsupport.cpp:535-567 | A line never overruns the text, and a read makes progress unless it meets the end. |
| AscText.LineAtShape | src/plugins/ASCSupport/src/ascsupport.cpp:535-567 | A line is the text up to its end and holds no CR or LF. It ends at the end of the text or at a break, and reading skips CR LF, CR or LF. |
| AscText.EndOfLine | src/plugins/ASCSupport/src/ascsupport.cpp:538-556 | The lambda says "end" exactly at a break or at the end of the text, and then takes the break. |
| AscText.ReadLine | src/plugins/ASCSupport/src/ascsupport.cpp:535-567 | `readLine` returns the line `LineAt` describes and leaves the stream after its break. |
| AscText.ReadLines | src/plugins/ASCSupport/src/ascsupport.cpp:862-866 | The reading loop keeps the non-empty lines until the end of the stream. |
| AscText.LinesFromShape | src/plugins/ASCSupport/src/ascsupport.cpp:862-866 | Every kept line is non-empty and holds no line break. |
| AscText.SpliceHeaderTraces | src/plugins/ASCSupport/src/ascsupport.cpp:578-592 | The header is the longest run of leading lines holding ':', placed before what it held; the traces are the lines after it. |
| AscHeader.MakeContext | src/plugins/ASCSupport/src/ascsupport.cpp:245-293 | `makeContext` builds the context `ContextFor` describes. |
| AscHeader.ContextDelimiters | src/plugins/ASCSupport/src/ascsupport.cpp:252-265 | The value delimiter follows the first ':' of the first line, and the key delimiter is ':' plus that character. A first line without ':' or ending at it is refused. The decimal point is asked for only after '.' or ','. |
| AscHeader.FirstLineSplits | src/plugins/ASCSupport/src/ascsupport.cpp:265 | The first line always splits at the key delimiter taken from it. |
| AscHeader.ChannelCountAt | src/plugins/ASCSupport/src/ascsupport.cpp:273-287 | The channel count comes from the first "maxchannels" key, and an unreadable value is a format error. |
| AscHeader.ChannelCountMissing | src/plugins/ASCSupport/src/ascsupport.cpp:273-290 | Without a "maxchannels" key the count is -1, which no context accepts. |
| AscHeader.ContextChannels | src/plugins/ASCSupport/src/ascsupport.cpp:245-293 | A context exists exactly when the first line yields a value delimiter and the channel count is at least one; that count is the context's. |
| AscHeader.AppendWithUnit | src/plugins/ASCSupport/src/ascsupport.cpp:672-682 | The unit check and conversion loop behave as `UnitValues`. |
| AscHeader.UnitValuesMeaning | src/plugins/ASCSupport/src/ascsupport.cpp:672-699 | An entry is accepted only when its last piece is the unit, and then adds exactly one converted value per other piece, in order. |
| AscHeader.EZChromSamplingRate | src/plugins/ASCSupport/src/ascsupport.cpp:672-682 | `EZChrom_SamplingRate` behaves as `SamplingRateEntry`. |
| AscHeader.SamplingRateUnit | src/plugins/ASCSupport/src/ascsupport.cpp:672-682 | A rate entry is accepted only when it ends with "Hz", and then adds one rate per other piece. |
| AscHeader.PointPieces | src/plugins/ASCSupport/src/ascsupport.cpp:686-692 | When the pieces can be formed there is at least one. |
| AscHeader.PointPiecesMeaning | src/plugins/ASCSupport/src/ascsupport.cpp:686-692 | The pieces are those of the text, except that with '.' as delimiter the last two are rejoined as "…." and a text with no '.' has no pieces. |
| AscHeader.EZChromTotalDataPoints | src/plugins/ASCSupport/src/ascsupport.cpp:684-699 | The corrected `EZChrom_TotalDataPoints` behaves as `TotalPointsEntry`. |
| AscHeader.TotalPointsUnit | src/plugins/ASCSupport/src/ascsupport.cpp:684-699 | A points entry is accepted only when its last piece, after the '.' rejoin, is "Pts.", and then adds one count per other piece. |
| AscHeader.TotalPointsAgree | src/plugins/ASCSupport/src/ascsupport.cpp:684-699 | Wherever the handler as written is defined, the corrected one does the same. |
| AscHeader.TotalPointsUndefined | src/plugins/ASCSupport/src/ascsupport.cpp:689-692 | A '.'-delimited entry without '.' is undefined as written, and rejected for its unit by the corrected handler. |
| AscHeader.TotalPointsEmptyValue | src/plugins/ASCSupport/src/ascsupport.cpp:689-692 | The empty value with '.' as delimiter is undefined as written. |
| AscHeader.EZChromAxisMultiplier | src/plugins/ASCSupport/src/ascsupport.cpp:701-708 | `EZChrom_AxisMultiplier` behaves as `MultiplierEntry`: one multiplier per piece. |
| AscHeader.EZChromAxisTitle | src/plugins/ASCSupport/src/ascsupport.cpp:710-714 | The titles are replaced by the pieces of the entry. |
| AscHeader.Handle | src/plugins/ASCSupport/src/ascsupport.cpp:717-743 | A handler changes only the lists of the context. |
| AscHeader.Process | src/plugins/ASCSupport/src/ascsupport.cpp:717-743 | A handler's `process` behaves as `Handle`. |
| AscHeader.ParseHeader | src/plugins/ASCSupport/src/ascsupport.cpp:916-940 | `parseHeader` behaves as `HeaderParsed`. |
| AscHeader.UnknownKeyIgnored | src/plugins/ASCSupport/src/ascsupport.cpp:764-776 | An unknown key gets a handler that is not essential and changes nothing. |
| AscHeader.HeaderFailures | src/plugins/ASCSupport/src/ascsupport.cpp:916-935 | Reading the header fails only at a line without the key delimiter or at a line whose handler is essential. |
| AscHeader.HeaderTolerant | src/plugins/ASCSupport/src/ascsupport.cpp:916-940 | When every line splits and no handler is essential, reading cannot fail, and the outcome rests on `validate` alone. |
| AscTraces.ChannelRun | src/plugins/ASCSupport/src/ascsupport.cpp:319-327 | A completed points loop has read exactly its count of lines and points; the corrected loop is never undefined. |
| AscTraces.ReadChannel | src/plugins/ASCSupport/src/ascsupport.cpp:319-327 | The points loop of one channel behaves as the corrected `ChannelRun`. |
| AscTraces.RunPoints | src/plugins/ASCSupport/src/ascsupport.cpp:319-327 | A channel's points are its next lines in order, each read as a number and scaled with its index. |
| AscTraces.ShortTraceRejected | src/plugins/ASCSupport/src/ascsupport.cpp:319-327 | A selected channel with fewer lines left than points is rejected, with "Unexpected end of data trace" when every line is a number. |
| AscTraces.RunAgree | src/plugins/ASCSupport/src/ascsupport.cpp:319-327 | Wherever the points loop as written is defined, the corrected one does the same. |
| AscTraces.ChannelStep | src/plugins/ASCSupport/src/ascsupport.cpp:298-336 | An unselected channel skips exactly its point count of lines; a selected one yields that channel's signal. |
| AscTraces.ChannelTurn | src/plugins/ASCSupport/src/ascsupport.cpp:305-336 | One turn of the channel loop behaves as the corrected `ChannelStep`. |
| AscTraces.StepAgree | src/plugins/ASCSupport/src/ascsupport.cpp:305-336 | Wherever a turn as written is defined, the corrected one does the same. |
| AscTraces.ParseTraces | src/plugins/ASCSupport/src/ascsupport.cpp:295-341 | `parseTraces` behaves as `TracesParsed`. |
| AscTraces.TracesAgree | src/plugins/ASCSupport/src/ascsupport.cpp:295-341 | Wherever `parseTraces` as written is defined, the corrected one does the same. |
| AscTraces.ParsedSignals | src/plugins/ASCSupport/src/ascsupport.cpp:295-341 | A successful read yields one signal per selected channel, in channel order. Each is named "Channel <index>" and carries its units and the file's name and path. |
| AscTraces.ParsedConsumes | src/plugins/ASCSupport/src/ascsupport.cpp:295-341 | A successful read moves through exactly the channels' point counts of lines, never past the last line, and lines are left over exactly when they fall short of it. |
| AscTraces.TraceEndUndefined | src/plugins/ASCSupport/src/ascsupport.cpp:308-327 | With no lines and a selected first channel that has points, the loop as written is undefined and the corrected one reports the trace as ending early. |
| CsvLoader.EncodingsConsistent | src/plugins/CSVSupport/src/csvfileloader.cpp:36-61 | Every encoding of the corrected table, which differs from the source's only in the two big-endian marks, is filed under its own name, and may carry a mark exactly when it has one. |
| CsvLoader.EightBitAndUtf8Marks | src/plugins/CSVSupport/src/csvfileloader.cpp:36-45 | The 8-bit encodings have no mark, and UTF-8's is the UTF-8 image of U+FEFF. |
| CsvLoader.Utf16Marks | src/plugins/CSVSupport/src/csvfileloader.cpp:42-43 | The corrected UTF-16 marks are U+FEFF's two bytes, least significant first for LE and reversed for BE. |
| CsvLoader.Utf32Marks | src/plugins/CSVSupport/src/csvfileloader.cpp:44-45 | The corrected UTF-32 marks are U+FEFF's four bytes, least significant first for LE and reversed for BE. |
| CsvLoader.BigEndianMarksAsWritten | src/plugins/CSVSupport/src/csvfileloader.cpp:43-45 | As written, neither big-endian mark is the reverse of its little-endian one. |
| CsvLoader.BigEndianMarkRefused | src/plugins/CSVSupport/src/csvfileloader.cpp:43 | A UTF-16BE file starting with FE FF is refused by the table as written and accepted by the corrected one. |
| CsvLoader.CheckBomMeaning | src/plugins/CSVSupport/src/csvfileloader.cpp:205-219 | Without `readBom` the bytes pass untouched. With it they pass exactly when they start with the encoding's mark, which is then removed. |
| CsvLoader.SanitizeMeaning | src/plugins/CSVSupport/src/csvfileloader.cpp:138-146 | A value is refused exactly when it holds '.' and the separator is something else. Otherwise every separator, and nothing else, becomes '.', and turning the periods back gives the value. |
| CsvLoader.MultiRow | src/plugins/CSVSupport/src/csvfileloader.cpp:371-395 | An accepted row has one y per column after the first, and a refused row is never the header error. |
| CsvLoader.MultiRowFields | src/plugins/CSVSupport/src/csvfileloader.cpp:371-395 | An accepted row has exactly `columns` fields; its x is the first field's number and its ys the following fields'. |
| CsvLoader.SingleRow | src/plugins/CSVSupport/src/csvfileloader.cpp:419-441 | A refused row is never the header error. |
| CsvLoader.SingleRowFields | src/plugins/CSVSupport/src/csvfileloader.cpp:419-441 | With distinct columns a row is accepted exactly when it has enough fields and both are numbers, and its point is those two numbers. |
| CsvLoader.SeriesOf | src/plugins/CSVSupport/src/csvfileloader.cpp:397-398 | There is one series per y column, each as long as the rows. |
| CsvLoader.SeriesStep | src/plugins/CSVSupport/src/csvfileloader.cpp:397-398 | One more row adds its point at the end of every series. |
| CsvLoader.AddRow | src/plugins/CSVSupport/src/csvfileloader.cpp:397-398 | The inner loop puts the row's x with its j-th y at the end of series j. |
| CsvLoader.FillSeries | src/plugins/CSVSupport/src/csvfileloader.cpp:365-401 | The row loop converts rows up to the first refused one and builds their series. |
| CsvLoader.ReadStreamMulti | src/plugins/CSVSupport/src/csvfileloader.cpp:352-404 | `readStreamMulti` gives the series and warning `MultiRead` describes. |
| CsvLoader.MultiReadPoints | src/plugins/CSVSupport/src/csvfileloader.cpp:352-404 | There are `columns - 1` series of equal length. Each accepted line adds its x and its j-th y to series j. The first refused line stops the read and is reported with its 1-based number in the stream. |
| CsvLoader.ReadStreamSingle | src/plugins/CSVSupport/src/csvfileloader.cpp:406-448 | `readStreamSingle` gives the series and warning `SingleRead` describes. |
| CsvLoader.SingleReadPoints | src/plugins/CSVSupport/src/csvfileloader.cpp:406-448 | One series whose points are the accepted lines' x and y fields in order. The first refused line stops the read and is reported with its number. |
| CsvLoader.ReadHeaderMulti | src/plugins/CSVSupport/src/csvfileloader.cpp:303-324 | An accepted first line gives at least two columns. |
| CsvLoader.HeaderMultiMeaning | src/plugins/CSVSupport/src/csvfileloader.cpp:303-324 | The line is refused exactly when it has no delimiter; otherwise the column count is the delimiters plus one. A header line is consumed and is its labels joined by the delimiter. |
| CsvLoader.ReadHeaderSingle | src/plugins/CSVSupport/src/csvfileloader.cpp:326-350 | An accepted first line never moves past the lines. |
| CsvLoader.HeaderSingleMeaning | src/plugins/CSVSupport/src/csvfileloader.cpp:326-350 | The line is refused exactly when it has fewer fields than the higher column. A header line is consumed and gives the x and y columns' fields as labels. |
| CsvLoader.LeadingBlanks | src/plugins/CSVSupport/src/csvfileloader.cpp:244-254 | The number of skipped lines never exceeds the lines. |
| CsvLoader.LeadingBlanksMeaning | src/plugins/CSVSupport/src/csvfileloader.cpp:244-254 | The skipped lines are exactly the run of blank lines that the first other line ends. |
| CsvLoader.ReadStream | src/plugins/CSVSupport/src/csvfileloader.cpp:229-301 | `readStream`, line by line, gives what `StreamRead` describes. |
| CsvLoader.StreamReadNotices | src/plugins/CSVSupport/src/csvfileloader.cpp:260-268 | "No data" exactly when every line is blank. The pack is invalid and empty exactly for the stream and header warnings; a refused data line keeps it valid. |
| CsvLoader.StreamReadRows | src/plugins/CSVSupport/src/csvfileloader.cpp:270-298 | The series have equal length: one for a single y column, one per y column otherwise. They are labelled by the header when there is one, and a refused line is reported under its number. |
| CsvLoader.StreamReadMultiRows | src/plugins/CSVSupport/src/csvfileloader.cpp:272-284 | The same, for a table with several y columns. |
| CsvLoader.StreamReadSingleRows | src/plugins/CSVSupport/src/csvfileloader.cpp:285-298 | The same, for a table with one y column. |
| CsvLoader.ReadClipboard | src/plugins/CSVSupport/src/csvfileloader.cpp:177-187 | The clipboard's lines are read as a stream named after the clipboard. |
| CsvLoader.ReadFile | src/plugins/CSVSupport/src/csvfileloader.cpp:189-227 | A missing or unreadable file, or a failed mark check against the given table of encodings, gives its warning and nothing. Otherwise the bytes after the mark are decoded and read as a stream named after the file. The source's table is `ENCODINGS_AS_WRITTEN`, with which a UTF-16BE file that starts with FE FF is refused (see `BigEndianMarkRefused`); `CORRECTED_ENCODINGS` holds the true big-endian marks. |
| CsvUtil.DialogParamsMeaning | src/plugins/CSVSupport/src/csvutil.h:10-38 | Accepted exactly when the delimiter is one character or "\t", differs from the decimal separator, and the columns differ; the first failed check names the refusal. "\t" becomes TAB, and a header is read exactly when the dialog says so. |
| CsvSupport.LoadCsvDataMeaning | src/plugins/CSVSupport/src/csvsupport.cpp:57-101 | The signal is named after the file's base name, and its identifier reads back as the y column. Labels come from the dialog without a header and from the file otherwise. Units are empty with header units and come from the dialog otherwise, the y unit losing one trailing newline. |
| CsvSupport.ParamsFromMeaning | src/plugins/CSVSupport/src/csvsupport.cpp:109-146 | The dialog is shown at least once, and each refused answer is warned about and asked again. A cancel gives invalid parameters; an accepted answer gives its valid parameters. |
| CsvSupport.MakeCsvLoaderParameters | src/plugins/CSVSupport/src/csvsupport.cpp:109-146 | The retry loop behaves as `ParamsFrom`. |
| CsvSupport.FirstStop | src/plugins/CSVSupport/src/csvsupport.cpp:241-256 | Asking from an answer on stops at the first answer that is a cancel or whose parameters read successfully; every answer before it was accepted and failed, refused by the dialog or by the read. |
| CsvSupport.FirstStopSkips | src/plugins/CSVSupport/src/csvsupport.cpp:241-256 | Answers that were accepted and failed do not move where asking stops. |
| CsvSupport.ParamsStop | src/plugins/CSVSupport/src/csvsupport.cpp:109-146 | The dialog loop ends past its first answer and has the same stop where it ends as where it starts; it ends exactly at the stop when it ends in a cancel. |
| CsvSupport.OneFile | src/plugins/CSVSupport/src/csvsupport.cpp:241-258 | One file keeps the invariant of the file loop: parameters left valid are those of the dialog answer kept with them. |
| CsvSupport.AskCancelled | src/plugins/CSVSupport/src/csvsupport.cpp:242-246 | A dialog loop ending in a cancel leaves the file without a signal and without parameters, the cancel being the stop. |
| CsvSupport.AskRead | src/plugins/CSVSupport/src/csvsupport.cpp:242-256 | Parameters from the dialog that read the file successfully give its signal, `loadCsvData` of that read with the answer that gave them; that answer is the stop. |
| CsvSupport.AskStops | src/plugins/CSVSupport/src/csvsupport.cpp:241-258 | A file without parameters is loaded as the stop decides: its signal with that answer's parameters kept when the stopping answer succeeds, nothing and no parameters when it is a cancel; asking ends one answer past the stop. |
| CsvSupport.OneFileStops | src/plugins/CSVSupport/src/csvsupport.cpp:241-258 | Kept parameters that read the file give its signal without asking; otherwise they are dropped and the file is loaded as the stop decides. |
| CsvSupport.FromFilesReuse | src/plugins/CSVSupport/src/csvsupport.cpp:237-258 | Once the kept parameters read every remaining file, each file gives its signal with them, in file order, one per file, and the dialog is not shown again. |
| CsvSupport.LoadOneFile | src/plugins/CSVSupport/src/csvsupport.cpp:241-258 | The loop over one file gives exactly the signal and the state of `OneFile`. |
| CsvSupport.LoadCsvFromFileInternal | src/plugins/CSVSupport/src/csvsupport.cpp:235-262 | The output is exactly `FromFiles` over all the files from no parameters and the first answer: per file, in order, what `OneFile` gives, the state carried to the next file. |
| CsvSupport.ClipboardStops | src/plugins/CSVSupport/src/csvsupport.cpp:196-218 | The clipboard gives exactly one signal, without a file name, from the stopping answer when it succeeds, and nothing when it is a cancel. |
| CsvSupport.LoadCsvFromClipboard | src/plugins/CSVSupport/src/csvsupport.cpp:196-218 | The loop gives exactly `ClipboardFrom` from the first answer. |
| CsvSupport.LoadOptionsMatchIdentifier | src/plugins/CSVSupport/src/csvsupport.cpp:184-194 | `load`, `loadHint` and `loadPath` (lines 264-286 as well) load nothing for an option the identifier does not list. "file" opens the file dialog, or reads the path; "clipboard" reads the clipboard. |
| EZChromSupport.FindChannel | src/plugins/EZChromSupport/src/ezchromsupport.cpp:89 | The search finds a name exactly when a channel on offer has it. |
| EZChromSupport.MaybeUpdateSelectedChannels | src/plugins/EZChromSupport/src/ezchromsupport.cpp:83-111 | The check and refill loops give the selection `UpdatedSelection` describes. |
| EZChromSupport.UpdatedSelectionMeaning | src/plugins/EZChromSupport/src/ezchromsupport.cpp:83-111 | The dialog is shown exactly when nothing is selected or a selected name is not on offer; otherwise the selection is kept. A closed dialog selects every channel; an accepted one selects exactly the checked names. |
| EZChromSupport.ChannelsOf | src/plugins/EZChromSupport/src/ezchromsupport.cpp:213-224 | One channel per trace. |
| EZChromSupport.CollectChannels | src/plugins/EZChromSupport/src/ezchromsupport.cpp:213-224 | The loop reports a duplicate exactly when two traces share a name, and otherwise collects every trace's name and units. |
| EZChromSupport.CopyScans | src/plugins/EZChromSupport/src/ezchromsupport.cpp:237-243 | Each scan becomes a point, in scan order. |
| EZChromSupport.CollectSelected | src/plugins/EZChromSupport/src/ezchromsupport.cpp:228-257 | The output loop gives a signal for each selected trace, in file order. |
| EZChromSupport.SelectedDataMeaning | src/plugins/EZChromSupport/src/ezchromsupport.cpp:228-257 | The output holds one signal per selected trace and nothing else. Each is named after the file, identified by the trace's name, and carries its units and its scans. |
| EZChromSupport.LoadSingleFile | src/plugins/EZChromSupport/src/ezchromsupport.cpp:200-262 | `loadSingleFile`, loop by loop, gives what `SingleFile` describes. |
| EZChromSupport.SingleFileMeaning | src/plugins/EZChromSupport/src/ezchromsupport.cpp:200-262 | A path without a file name is refused. A refused file keeps the selection and shows no dialog. A loaded file has distinct trace names and gives exactly the selected traces. |
| EZChromSupport.LoadInteractive | src/plugins/EZChromSupport/src/ezchromsupport.cpp:180-198 | The loop over the chosen files gives what `Interactive` describes. |
| EZChromSupport.LoadNextFile | src/plugins/EZChromSupport/src/ezchromsupport.cpp:188-194 | One file of the loop gives the outcome of `SingleFile` with the selection so far and the next dialog answer; the dialog counter advances exactly when the dialog was shown. |
| EZChromSupport.InteractiveStep | src/plugins/EZChromSupport/src/ezchromsupport.cpp:180-198 | A failing file adds its warning and no signal, and keeps the selection for the next file. A loaded file adds its signals after the earlier files' and passes its selection on. |
| EZChromSupport.LoadPath | src/plugins/EZChromSupport/src/ezchromsupport.cpp:172-178 | One file with no channel selected yet, so a loaded file has always shown the dialog. |

## Left out

- Threads and the thread-pool entry of the connection handler, the process
  plumbing of `main.cpp`, and D-Bus service registration: these are
  concurrency and foreign bus calls.
- Wall-clock timeouts (5000 and 1000 ms): whether data or a flush arrives
  in time is a nondeterministic outcome of the socket model.
- Floating point. `strToDbl`, `readValue` and the ASC x/y scaling are
  parameters, and points on the wire are uninterpreted 64-bit patterns.
- File I/O and text codecs. ASC `readFile`, `QTextStream` and `toUtf8` are
  not modelled. The CSV file's decoding is the `decode` parameter. Strings
  reach the binary protocol already as UTF-8 bytes.
- Dialogs are given as sequences of answers. The file-picker dialogs are
  not modelled: `loadCsvFromFile` and EZChrom `load`/`loadHint` show one and
  then do what `LoadCsvFromFileInternal` and `LoadInteractive` model.
- NetCDF and ChemStation plugins, and `ezf_read`: thin wrappers over
  libraries that are not available. An EZChrom file's traces (or the
  reader's message) are the `read` input.
- `src/plugins/ASCSupport/src/ascsupport_handlers.h` is not part of this
  model. The handler table's keys, the essential flags and
  `ASCContext::validate` are parameters (`Env`).
- ASC `loadInternal` beyond reading lines and splicing. Channel selection
  (`availChans`, `selectChannels`), the file name extraction and ASC
  `load`/`loadHint`/`loadPath` are not modelled: they are dialogs and glue.
- The iteration order of `std::set` does not matter to any modelled
  outcome, so selections are sets.
- The ABI version constants are parameters:
  `include/edii_ipc_common.h` is not part of this model.
- `dataloader.h` is not part of this model. The loader is a value holding
  its formats and a total function from a call to a result.
- The host byte order is fixed as little-endian.
- CSV mismatches. The CSV sources mix two versions, and the model records
  the differences instead of resolving them:
  - `csvutil.h:32-37` passes 8 arguments (no `readBom`) to the 9-parameter
    constructor at `csvfileloader.cpp:94-98`, and the dialog's parameters
    have no `readBom` field. The model's dialog carries one, and the
    translation passes it on.
  - `csvsupport.cpp:140-144` also passes 8 arguments (no `multipleYcols`).
    The model passes the dialog's translated parameters whole.
  - `csvsupport.cpp:57` uses `CsvFileLoader::Data`, which
    `csvfileloader.h` does not declare. The model's `CsvData` stands for it.
  - `readStream` and `readStreamMulti` are declared without the file name
    that their bodies use. The model passes it.
- CsvLoader.ReadStream: requires `linesToSkip >= 0`, and x and y columns of
  at least 1 in single-column mode. The source does not check either, and
  a negative value indexes outside the line list.
- CsvLoader.ReadStreamMulti: requires at least two columns, which the
  source asserts (`csvfileloader.cpp:356`) and `readHeaderMulti` ensures.
- CsvLoader.StreamReadRows: a header error is reported with `linesToSkip`
  as its line number, as written; the model does not make it 1-based.
- `std::regex` is not modelled: `AscText.SciNotation` states the pattern
  that `splitDecimal` matches (`[-+]?[0-9]+[eE][-+]?[0-9]+`) directly.

## Findings

| source | as written | input that shows it | evidently intended | confidence | as-written member | corrected member |
|---|---|---|---|---|---|---|
| src/core/src/localsocketconnectionhandler.cpp:121 | `readBlock` asks each read for `size` bytes although only `size - read` are missing | A request header arriving as chunks [1E] then [09 01 1E 09]: the loop stores four bytes into a three-byte buffer and consumes the first byte of the next frame | Each read asks for `size - read` bytes | not executed | ConnectionHandler.ReadBlockOverrun | ConnectionHandler.ReadBlockExact |
| src/plugins/CSVSupport/src/csvfileloader.cpp:43-45 | The UTF-16BE mark is FF FF and the UTF-32BE mark is 00 00 FF FF | A UTF-16BE file starting FE FF, read with `readBom`, is refused for its mark | FE FF and 00 00 FE FF, the big-endian image of U+FEFF | not executed | CsvLoader.BigEndianMarkRefused | CsvLoader.Utf16Marks |
| src/plugins/ASCSupport/src/ascsupport.cpp:689-692 | With '.' as delimiter, `EZChrom_TotalDataPoints` drops the last piece and then calls `back()` on what is left | An entry with no '.' (the empty value of a "Total Data Points" line) leaves no piece, so `back()` is undefined | The entry is rejected for lacking the "Pts." unit | not executed | AscHeader.TotalPointsEmptyValue | AscHeader.TotalPointsUnit |
| src/plugins/ASCSupport/src/ascsupport.cpp:308-327 | `parseTraces` reads the line under its iterator without checking for the end, and skips channels with `std::advance` past the end | No trace lines and a selected first channel with at least one point: the loop dereferences the end of the list | The trace is reported as ending too early | not executed | AscTraces.TraceEndUndefined | AscTraces.ShortTraceRejected |
