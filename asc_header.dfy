/**
 * The header of an ASC file: the context the loader derives from it (value
 * delimiter, decimal point, number of channels) and the entries the EZChrom
 * handlers read into that context.
 *
 * The context record, the handler classes, their keys and which of them
 * are essential are declared in a header that is not part of this model:
 * the keys, the essential handlers and the final `validate` check enter as
 * parameters (`Env`), and the number conversion `strToDbl` enters as a
 * partial function.
 */
module AscHeader {
  import opened Wrappers
  import opened Strings
  import opened AscText

  const HZ_STR: string := "Hz"
  const PTS_STR: string := "Pts."

  // The messages of the header's `AscFormatException`s.
  const NO_DELIMITER_MSG: string := "KeyValue entry contains no delimiter"
  const NO_VALUE_MSG: string := "First line in the header contains a key with no value"
  const CHANNELS_UNREADABLE_MSG: string := "Cannot read number of channels"
  const CHANNELS_INVALID_MSG: string := "Number of channels in the file is either not specified or invalid"
  const RATE_UNIT_MSG: string := "Unexpected unit of sampling rate"
  const POINTS_UNIT_MSG: string := "Unexpected unit of total data points"
  // The messages of the conversions: the text in quotes, then the reason.
  const QUOTE_OPEN: string := "String \""
  const NOT_DECIMAL_MSG: string := "\" cannot be converted to decimal number"
  const NOT_INTEGER_MSG: string := "\" cannot be converted to integer"
  const OUT_OF_NUM_RANGE_MSG: string := "\" represents a number outside of the available numerical range"
  const INCOMPLETE_HEADER_MSG: string := "ASC header does not contain all information necessary to interpret the data"

  /** What the loader knows about a file while it reads it. */
  datatype Context = Context(
    name: string,
    path: string,
    nChans: nat,
    kvDelim: string,
    valueDelim: char,
    dataDecimalPoint: char,
    samplingRates: seq<real>,
    nDatapoints: seq<int>,
    xAxisMultipliers: seq<real>,
    yAxisMultipliers: seq<real>,
    xAxisTitles: seq<string>,
    yAxisTitles: seq<string>)

  /** The entry handlers the loader registers. */
  datatype HandlerKind = SamplingRate | TotalDataPoints | XAxisMultiplier | YAxisMultiplier | XAxisTitle | YAxisTitle

  /**
   * What the files modelled here take from outside: the handler for each
   * key, which handlers are essential, the decimal conversion of
   * `strToDbl` (`std::stod` under the locale's decimal point) and the
   * context's `validate`.
   */
  datatype Env = Env(
    handlers: map<string, HandlerKind>,
    essential: HandlerKind -> bool,
    toDouble: string -> Result<real, NumError>,
    validate: Context -> bool)

  // ------------------------------------------------------------ context

  /**
   * The value delimiter: the character right after the first ':' of the
   * first header line.
   */
  function ValueDelimiter(first: string): Result<char, Failure>
  {
    match FindChar(first, KV_DELIM)
    case None => Err(AscFormat(NO_DELIMITER_MSG))
    case Some(i) =>
      if |first| == i + 1 then Err(AscFormat(NO_VALUE_MSG))
      else Ok(first[i + 1])
  }

  /**
   * The decimal point of the data: the user's pick when the value delimiter
   * could itself be one, otherwise '.'.
   */
  function DecimalPointFor(valueDelim: char, picked: char): char
  {
    if valueDelim == '.' || valueDelim == ',' then picked else '.'
  }

  /**
   * The number of channels: the value of the first "maxchannels" key, or -1
   * when there is none. A line without the delimiter before it is a runtime
   * error, a value that is not an integer a format error.
   */
  function ChannelCount(lines: seq<string>, kvDelim: string): Result<int, Failure>
  {
    if |lines| == 0 then Ok(-1)
    else match SplitKeyValue(lines[0], kvDelim)
      case Err(e) => Err(e)
      case Ok((key, value)) =>
        if key == "maxchannels" then
          match StrToInt(value)
          case Err(_) => Err(AscFormat(CHANNELS_UNREADABLE_MSG))
          case Ok(n) => Ok(n)
        else ChannelCount(lines[1..], kvDelim)
  }

  function NewContext(name: string, path: string, nChans: nat, kvDelim: string, valueDelim: char, decPoint: char): Context
  {
    Context(name, path, nChans, kvDelim, valueDelim, decPoint, [], [], [], [], [], [])
  }

  /** The context `makeContext` builds, or why it cannot. */
  function ContextFor(name: string, path: string, header: seq<string>, picked: char): Result<Context, Failure>
    requires |header| >= 1
  {
    match ValueDelimiter(header[0])
    case Err(e) => Err(e)
    case Ok(vd) =>
      var kv := [KV_DELIM, vd];
      match ChannelCount(header, kv)
      case Err(e) => Err(e)
      case Ok(n) =>
        if n < 1 then Err(AscFormat(CHANNELS_INVALID_MSG))
        else Ok(NewContext(name, path, n, kv, vd, DecimalPointFor(vd, picked)))
  }

  /**
   * `makeContext`. The decimal-point dialog is the parameter `picked`; it is
   * consulted only when the value delimiter is '.' or ','.
   */
  method MakeContext(name: string, path: string, header: seq<string>, picked: char) returns (r: Result<Context, Failure>)
    requires |header| >= 1
    ensures r == ContextFor(name, path, header, picked)
  {
    var nChans := -1;
    var first := header[0];
    var valueDelim: char;
    match FindChar(first, KV_DELIM) {
      case None =>
        return Err(AscFormat(NO_DELIMITER_MSG));
      case Some(i) =>
        if |first| == i + 1 {
          return Err(AscFormat(NO_VALUE_MSG));
        }
        valueDelim := first[i + 1];
    }
    var kvDelim := [KV_DELIM, valueDelim];
    var dataDecimalPoint := if valueDelim == '.' || valueDelim == ',' then picked else '.';
    var k := 0;
    while k < |header|
      invariant 0 <= k <= |header|
      invariant ChannelCount(header, kvDelim) == ChannelCount(header[k..], kvDelim)
      invariant nChans == -1
    {
      assert header[k..][1..] == header[k + 1..];
      match SplitKeyValue(header[k], kvDelim) {
        case Err(e) =>
          return Err(e);
        case Ok((key, value)) =>
          if key == "maxchannels" {
            match StrToInt(value) {
              case Err(_) =>
                return Err(AscFormat(CHANNELS_UNREADABLE_MSG));
              case Ok(n) =>
                nChans := n;
                break;
            }
          }
      }
      k := k + 1;
    }
    assert ChannelCount(header, kvDelim) == Ok(nChans);
    if nChans < 1 {
      return Err(AscFormat(CHANNELS_INVALID_MSG));
    }
    return Ok(NewContext(name, path, nChans, kvDelim, valueDelim, dataDecimalPoint));
  }

  /**
   * The delimiters of a context: the value delimiter is the character that
   * follows the first ':' of the first line, the key delimiter is ':' and
   * that character, and a first line without a ':' or ending at it is
   * rejected.
   */
  lemma ContextDelimiters(name: string, path: string, header: seq<string>, picked: char)
    requires |header| >= 1
    ensures Lacks(header[0], KV_DELIM) ==>
      ContextFor(name, path, header, picked) == Err(AscFormat(NO_DELIMITER_MSG))
    ensures var f := header[0];
      |f| >= 1 && f[|f| - 1] == KV_DELIM && Lacks(f[..|f| - 1], KV_DELIM) ==>
      ContextFor(name, path, header, picked) == Err(AscFormat(NO_VALUE_MSG))
    ensures ContextFor(name, path, header, picked).Ok? ==>
      var c := ContextFor(name, path, header, picked).value;
      (exists i :: 0 <= i && i + 1 < |header[0]| && header[0][i] == KV_DELIM && Lacks(header[0][..i], KV_DELIM)
                   && c.valueDelim == header[0][i + 1])
      && c.kvDelim == [KV_DELIM, c.valueDelim]
      && c.dataDecimalPoint == (if c.valueDelim == '.' || c.valueDelim == ',' then picked else '.')
  {
    var f := header[0];
    match FindChar(f, KV_DELIM)
    case None =>
    case Some(i) =>
      if |f| >= 1 && f[|f| - 1] == KV_DELIM && Lacks(f[..|f| - 1], KV_DELIM) {
        forall k | 0 <= k < |f| - 1 ensures f[k] != KV_DELIM {
          assert f[..|f| - 1][k] == f[k];
        }
      }
  }

  /** The first header line always splits at the key delimiter the context takes from it. */
  lemma FirstLineSplits(first: string, vd: char)
    requires ValueDelimiter(first) == Ok(vd)
    ensures SplitKeyValue(first, [KV_DELIM, vd]).Ok?
  {
    var i := FindChar(first, KV_DELIM).value;
    assert first[i..i + 2] == [KV_DELIM, vd];
    assert OccursAt(first, [KV_DELIM, vd], i);
  }

  /**
   * The channel count is read from the first line whose key is
   * "maxchannels", once every line before it splits.
   */
  lemma {:induction false} ChannelCountAt(lines: seq<string>, kvDelim: string, k: nat)
    requires k < |lines|
    requires forall j :: 0 <= j < k ==>
      SplitKeyValue(lines[j], kvDelim).Ok? && SplitKeyValue(lines[j], kvDelim).value.0 != "maxchannels"
    requires SplitKeyValue(lines[k], kvDelim).Ok? && SplitKeyValue(lines[k], kvDelim).value.0 == "maxchannels"
    ensures var value := SplitKeyValue(lines[k], kvDelim).value.1;
      ChannelCount(lines, kvDelim) ==
        (if StrToInt(value).Ok? then Ok(StrToInt(value).value) else Err(AscFormat(CHANNELS_UNREADABLE_MSG)))
  {
    if k > 0 {
      ChannelCountAt(lines[1..], kvDelim, k - 1);
    }
  }

  /** Without a "maxchannels" key the count is -1, which no context accepts. */
  lemma {:induction false} ChannelCountMissing(lines: seq<string>, kvDelim: string)
    requires forall j :: 0 <= j < |lines| ==>
      SplitKeyValue(lines[j], kvDelim).Ok? && SplitKeyValue(lines[j], kvDelim).value.0 != "maxchannels"
    ensures ChannelCount(lines, kvDelim) == Ok(-1)
  {
    if |lines| > 0 {
      ChannelCountMissing(lines[1..], kvDelim);
    }
  }

  /**
   * A context exists exactly when the first line yields a value delimiter
   * and the channel count it leads to is at least one; that count is the
   * context's.
   */
  lemma ContextChannels(name: string, path: string, header: seq<string>, picked: char)
    requires |header| >= 1
    ensures ContextFor(name, path, header, picked).Ok? <==>
      (ValueDelimiter(header[0]).Ok?
       && var n := ChannelCount(header, [KV_DELIM, ValueDelimiter(header[0]).value]); n.Ok? && n.value >= 1)
    ensures ContextFor(name, path, header, picked).Ok? ==>
      Ok(ContextFor(name, path, header, picked).value.nChans as int)
        == ChannelCount(header, [KV_DELIM, ValueDelimiter(header[0]).value])
  {
  }

  // ------------------------------------------------------------ conversions

  /** `strToDbl`: the conversion, its failures turned into format errors. */
  function DoubleOf(s: string, toDouble: string -> Result<real, NumError>): Result<real, Failure>
  {
    match toDouble(s)
    case Ok(v) => Ok(v)
    case Err(NotANumber) => Err(AscFormat(QUOTE_OPEN + s + NOT_DECIMAL_MSG))
    case Err(OutOfRange) => Err(AscFormat(QUOTE_OPEN + s + OUT_OF_NUM_RANGE_MSG))
  }

  /** `strToInt`: `StrToInt`, its failures turned into format errors. */
  function IntOf(s: string): Result<int, Failure>
  {
    match StrToInt(s)
    case Ok(v) => Ok(v)
    case Err(NotANumber) => Err(AscFormat(QUOTE_OPEN + s + NOT_INTEGER_MSG))
    case Err(OutOfRange) => Err(AscFormat(QUOTE_OPEN + s + OUT_OF_NUM_RANGE_MSG))
  }

  /** `strToDbl` as a converter of one piece. */
  function DoubleReader(toDouble: string -> Result<real, NumError>): string -> Result<real, Failure>
  {
    s => DoubleOf(s, toDouble)
  }

  /**
   * What the rate and point handlers share: the last piece must be the unit,
   * and every piece before it is converted and appended in order.
   */
  function UnitValues<T>(into: seq<T>, parts: seq<string>, unit: string, msg: string,
                         conv: string -> Result<T, Failure>): (seq<T>, Option<Failure>)
    requires |parts| >= 1
  {
    if parts[|parts| - 1] != unit then (into, Some(AscFormat(msg)))
    else
      var c := Convert(parts[..|parts| - 1], conv);
      (into + c.0, c.1)
  }

  method AppendWithUnit<T>(into: seq<T>, parts: seq<string>, unit: string, msg: string,
                           conv: string -> Result<T, Failure>) returns (out: seq<T>, err: Option<Failure>)
    requires |parts| >= 1
    ensures (out, err) == UnitValues(into, parts, unit, msg, conv)
  {
    if parts[|parts| - 1] != unit {
      return into, Some(AscFormat(msg));
    }
    out, err := AppendConverted(into, parts[..|parts| - 1], conv);
  }

  /**
   * An entry is accepted only when its last piece is the unit, and then it
   * adds exactly one value per other piece, each that piece's conversion.
   */
  lemma UnitValuesMeaning<T>(into: seq<T>, parts: seq<string>, unit: string, msg: string,
                             conv: string -> Result<T, Failure>)
    requires |parts| >= 1
    ensures var (out, err) := UnitValues(into, parts, unit, msg, conv);
      (parts[|parts| - 1] != unit ==> out == into && err == Some(AscFormat(msg)))
      && (err.None? ==>
            parts[|parts| - 1] == unit && |out| == |into| + |parts| - 1 && out[..|into|] == into
            && forall k :: 0 <= k < |parts| - 1 ==> conv(parts[k]) == Ok(out[|into| + k]))
  {
    if parts[|parts| - 1] == unit {
      var init := parts[..|parts| - 1];
      var c := Convert(init, conv);
      ConvertMeaning(init, conv);
      var out := into + c.0;
      forall k | 0 <= k < |parts| - 1 && k < |c.0| ensures conv(parts[k]) == Ok(out[|into| + k]) {
        assert init[k] == parts[k];
      }
    }
  }

  // ------------------------------------------------------------ handlers

  /**
   * `EZChrom_SamplingRate`: the pieces must end with the unit "Hz"; each
   * piece before it is one rate, appended in order.
   */
  function SamplingRateEntry(rates: seq<real>, delim: char, decPoint: char, entry: string,
                             toDouble: string -> Result<real, NumError>): (seq<real>, Option<Failure>)
  {
    UnitValues(rates, DecimalPieces(entry, delim, decPoint), HZ_STR, RATE_UNIT_MSG, DoubleReader(toDouble))
  }

  method EZChromSamplingRate(rates: seq<real>, delim: char, decPoint: char, entry: string,
                             toDouble: string -> Result<real, NumError>) returns (out: seq<real>, err: Option<Failure>)
    ensures (out, err) == SamplingRateEntry(rates, delim, decPoint, entry, toDouble)
  {
    var parts := SplitDecimal(entry, delim, decPoint);
    out, err := AppendWithUnit(rates, parts, HZ_STR, RATE_UNIT_MSG, DoubleReader(toDouble));
  }

  /**
   * The pieces of a total-points entry as the source forms them: with '.' as
   * the delimiter the unit "Pts." is itself cut in two, so the last piece is
   * dropped and a '.' put back on the one before. `None` when there is no
   * piece before the last to put it back on: a '.'-delimited text with no
   * '.' at all.
   */
  function PointPieces(entry: string, delim: char): (r: Option<seq<string>>)
    ensures r.Some? ==> |r.value| >= 1
  {
    var parts := Pieces(entry, delim);
    if delim != '.' then Some(parts)
    else if |parts| == 1 then None
    else Some(parts[..|parts| - 2] + [parts[|parts| - 2] + "."])
  }

  /** The unit check and conversion that follow, once the pieces are formed. */
  function PointCounts(counts: seq<int>, parts: seq<string>): (seq<int>, Option<Failure>)
    requires |parts| >= 1
  {
    UnitValues(counts, parts, PTS_STR, POINTS_UNIT_MSG, IntOf)
  }

  /**
   * `EZChrom_TotalDataPoints` as written; `None` where its behaviour is
   * undefined, which is where the source calls `back()` on the vector it
   * has just emptied.
   */
  function TotalPointsEntryAsWritten(counts: seq<int>, delim: char, entry: string): Option<(seq<int>, Option<Failure>)>
  {
    match PointPieces(entry, delim)
    case None => None
    case Some(parts) => Some(PointCounts(counts, parts))
  }

  /**
   * `EZChrom_TotalDataPoints` with the missing check: a '.'-delimited entry
   * that has no '.' lacks the unit and is rejected as such.
   */
  function TotalPointsEntry(counts: seq<int>, delim: char, entry: string): (seq<int>, Option<Failure>)
  {
    match PointPieces(entry, delim)
    case None => (counts, Some(AscFormat(POINTS_UNIT_MSG)))
    case Some(parts) => PointCounts(counts, parts)
  }

  method EZChromTotalDataPoints(counts: seq<int>, delim: char, entry: string) returns (out: seq<int>, err: Option<Failure>)
    ensures (out, err) == TotalPointsEntry(counts, delim, entry)
  {
    var parts := Split(entry, delim);
    if delim == '.' {
      if |parts| == 1 {
        return counts, Some(AscFormat(POINTS_UNIT_MSG));
      }
      ghost var all := parts;
      parts := parts[..|parts| - 1];
      assert parts[..|parts| - 1] == all[..|all| - 2] && parts[|parts| - 1] == all[|all| - 2];
      parts := parts[..|parts| - 1] + [parts[|parts| - 1] + "."];
    }
    out, err := AppendWithUnit(counts, parts, PTS_STR, POINTS_UNIT_MSG, IntOf);
  }

  /** `EZChrom_AxisMultiplier`: every piece is one multiplier, appended in order. */
  function MultiplierEntry(multipliers: seq<real>, delim: char, decPoint: char, entry: string,
                           toDouble: string -> Result<real, NumError>): (seq<real>, Option<Failure>)
  {
    var c := Convert(DecimalPieces(entry, delim, decPoint), DoubleReader(toDouble));
    (multipliers + c.0, c.1)
  }

  method EZChromAxisMultiplier(multipliers: seq<real>, delim: char, decPoint: char, entry: string,
                               toDouble: string -> Result<real, NumError>) returns (out: seq<real>, err: Option<Failure>)
    ensures (out, err) == MultiplierEntry(multipliers, delim, decPoint, entry, toDouble)
  {
    var parts := SplitDecimal(entry, delim, decPoint);
    out, err := AppendConverted(multipliers, parts, DoubleReader(toDouble));
  }

  /** `EZChrom_AxisTitle`: the titles are replaced by the pieces of the entry. */
  method EZChromAxisTitle(delim: char, entry: string) returns (titles: seq<string>)
    ensures titles == Pieces(entry, delim)
  {
    titles := Split(entry, delim);
  }

  // ------------------------------------------------------------ unit checks

  /**
   * A sampling-rate entry is accepted only when its last piece is "Hz", and
   * then it adds exactly one rate per other piece, each that piece's value.
   */
  lemma SamplingRateUnit(rates: seq<real>, delim: char, decPoint: char, entry: string,
                         toDouble: string -> Result<real, NumError>)
    ensures var parts := DecimalPieces(entry, delim, decPoint);
      var (out, err) := SamplingRateEntry(rates, delim, decPoint, entry, toDouble);
      (parts[|parts| - 1] != HZ_STR ==> out == rates && err == Some(AscFormat(RATE_UNIT_MSG)))
      && (err.None? ==>
            parts[|parts| - 1] == HZ_STR && |out| == |rates| + |parts| - 1 && out[..|rates|] == rates
            && forall k :: 0 <= k < |parts| - 1 ==> DoubleOf(parts[k], toDouble) == Ok(out[|rates| + k]))
  {
    UnitValuesMeaning(rates, DecimalPieces(entry, delim, decPoint), HZ_STR, RATE_UNIT_MSG, DoubleReader(toDouble));
  }

  /**
   * A total-points entry is accepted only when its last piece, after the
   * '.' rejoin, is "Pts."; it then adds exactly one count per other piece.
   * With '.' as the delimiter a correct entry such as "10.20.Pts." yields
   * the counts 10 and 20.
   */
  lemma TotalPointsUnit(counts: seq<int>, delim: char, entry: string)
    ensures var (out, err) := TotalPointsEntry(counts, delim, entry);
      match PointPieces(entry, delim)
      case None => out == counts && err == Some(AscFormat(POINTS_UNIT_MSG))
      case Some(ps) =>
        (ps[|ps| - 1] != PTS_STR ==> out == counts && err == Some(AscFormat(POINTS_UNIT_MSG)))
        && (err.None? ==>
              ps[|ps| - 1] == PTS_STR && |out| == |counts| + |ps| - 1 && out[..|counts|] == counts
              && forall k :: 0 <= k < |ps| - 1 ==> IntOf(ps[k]) == Ok(out[|counts| + k]))
  {
    if PointPieces(entry, delim).Some? {
      UnitValuesMeaning(counts, PointPieces(entry, delim).value, PTS_STR, POINTS_UNIT_MSG, IntOf);
    }
  }

  /** The pieces are those of the text, except that with '.' the unit is put back together. */
  lemma PointPiecesMeaning(entry: string, delim: char)
    ensures var parts := Pieces(entry, delim);
      (delim != '.' ==> PointPieces(entry, delim) == Some(parts))
      && (delim == '.' ==> (PointPieces(entry, delim).None? <==> Lacks(entry, '.')))
      && (delim == '.' && !Lacks(entry, '.') ==>
            var ps := PointPieces(entry, delim).value;
            |ps| == |parts| - 1 && ps[..|ps| - 1] == parts[..|parts| - 2]
            && ps[|ps| - 1] == parts[|parts| - 2] + ".")
  {
    PiecesShape(entry, delim);
    if delim == '.' && !Lacks(entry, '.') {
      CountLacks(entry, '.');
    }
    if delim == '.' && Lacks(entry, '.') {
      PiecesNone(entry, '.');
    }
  }

  /**
   * The source's total-points handler has no defined behaviour for a
   * '.'-delimited entry without a '.' (such as the empty value of a line
   * "Total Data Points:."); the corrected handler rejects it for its unit.
   * Everywhere else the two agree.
   */
  lemma TotalPointsUndefined(counts: seq<int>, entry: string)
    requires Lacks(entry, '.')
    ensures TotalPointsEntryAsWritten(counts, '.', entry).None?
    ensures TotalPointsEntry(counts, '.', entry) == (counts, Some(AscFormat(POINTS_UNIT_MSG)))
  {
    PiecesNone(entry, '.');
  }

  lemma TotalPointsEmptyValue(counts: seq<int>)
    ensures TotalPointsEntryAsWritten(counts, '.', "").None?
  {
    TotalPointsUndefined(counts, "");
  }

  lemma TotalPointsAgree(counts: seq<int>, delim: char, entry: string)
    ensures TotalPointsEntryAsWritten(counts, delim, entry).Some? ==>
      TotalPointsEntryAsWritten(counts, delim, entry).value == TotalPointsEntry(counts, delim, entry)
  {
  }

  // ------------------------------------------------------------ the header

  /** `getHandler`: the registered handler of a key; `None` is the null handler of unknown keys. */
  function GetHandler(key: string, env: Env): Option<HandlerKind>
  {
    if key in env.handlers then Some(env.handlers[key]) else None
  }

  /** Whether a handler's format errors abort reading; the null handler's never do. */
  predicate Essential(h: Option<HandlerKind>, env: Env)
  {
    h.Some? && env.essential(h.value)
  }

  /** What a handler's `process` does to the context with the value of its entry. */
  function Handle(h: Option<HandlerKind>, ctx: Context, value: string, env: Env): (r: (Context, Option<Failure>))
    ensures r.0.(samplingRates := ctx.samplingRates, nDatapoints := ctx.nDatapoints,
                 xAxisMultipliers := ctx.xAxisMultipliers, yAxisMultipliers := ctx.yAxisMultipliers,
                 xAxisTitles := ctx.xAxisTitles, yAxisTitles := ctx.yAxisTitles) == ctx
  {
    match h
    case None => (ctx, None)
    case Some(SamplingRate) =>
      var (v, e) := SamplingRateEntry(ctx.samplingRates, ctx.valueDelim, ctx.dataDecimalPoint, value, env.toDouble);
      (ctx.(samplingRates := v), e)
    case Some(TotalDataPoints) =>
      var (v, e) := TotalPointsEntry(ctx.nDatapoints, ctx.valueDelim, value);
      (ctx.(nDatapoints := v), e)
    case Some(XAxisMultiplier) =>
      var (v, e) := MultiplierEntry(ctx.xAxisMultipliers, ctx.valueDelim, ctx.dataDecimalPoint, value, env.toDouble);
      (ctx.(xAxisMultipliers := v), e)
    case Some(YAxisMultiplier) =>
      var (v, e) := MultiplierEntry(ctx.yAxisMultipliers, ctx.valueDelim, ctx.dataDecimalPoint, value, env.toDouble);
      (ctx.(yAxisMultipliers := v), e)
    case Some(XAxisTitle) => (ctx.(xAxisTitles := Pieces(value, ctx.valueDelim)), None)
    case Some(YAxisTitle) => (ctx.(yAxisTitles := Pieces(value, ctx.valueDelim)), None)
  }

  /** A handler's `process`, dispatching to its `EZChrom_*` function. */
  method Process(h: Option<HandlerKind>, ctx: Context, value: string, env: Env) returns (out: Context, err: Option<Failure>)
    ensures (out, err) == Handle(h, ctx, value, env)
  {
    out, err := ctx, None;
    match h {
      case None =>
      case Some(SamplingRate) =>
        var v;
        v, err := EZChromSamplingRate(ctx.samplingRates, ctx.valueDelim, ctx.dataDecimalPoint, value, env.toDouble);
        out := ctx.(samplingRates := v);
      case Some(TotalDataPoints) =>
        var v;
        v, err := EZChromTotalDataPoints(ctx.nDatapoints, ctx.valueDelim, value);
        out := ctx.(nDatapoints := v);
      case Some(XAxisMultiplier) =>
        var v;
        v, err := EZChromAxisMultiplier(ctx.xAxisMultipliers, ctx.valueDelim, ctx.dataDecimalPoint, value, env.toDouble);
        out := ctx.(xAxisMultipliers := v);
      case Some(YAxisMultiplier) =>
        var v;
        v, err := EZChromAxisMultiplier(ctx.yAxisMultipliers, ctx.valueDelim, ctx.dataDecimalPoint, value, env.toDouble);
        out := ctx.(yAxisMultipliers := v);
      case Some(XAxisTitle) =>
        var v := EZChromAxisTitle(ctx.valueDelim, value);
        out := ctx.(xAxisTitles := v);
      case Some(YAxisTitle) =>
        var v := EZChromAxisTitle(ctx.valueDelim, value);
        out := ctx.(yAxisTitles := v);
    }
  }

  /**
   * The header read from `lines` on: each line split at the key delimiter
   * and handed to the handler of its key; a handler's error ends reading
   * only when the handler is essential, otherwise it is a warning and the
   * context keeps what the handler stored before failing.
   */
  function HeaderFrom(lines: seq<string>, ctx: Context, env: Env): Result<Context, Failure>
  {
    if |lines| == 0 then Ok(ctx)
    else match SplitKeyValue(lines[0], ctx.kvDelim)
      case Err(e) => Err(e)
      case Ok((key, value)) =>
        var h := GetHandler(key, env);
        var (next, err) := Handle(h, ctx, value, env);
        if err.Some? && Essential(h, env) then Err(err.value)
        else HeaderFrom(lines[1..], next, env)
  }

  /** `parseHeader`'s outcome: the header read, then the context validated. */
  function HeaderParsed(ctx: Context, header: seq<string>, env: Env): Result<Context, Failure>
  {
    match HeaderFrom(header, ctx, env)
    case Err(e) => Err(e)
    case Ok(c) =>
      if !env.validate(c) then Err(AscFormat(INCOMPLETE_HEADER_MSG))
      else Ok(c)
  }

  /** `parseHeader`. */
  method ParseHeader(ctx: Context, header: seq<string>, env: Env) returns (r: Result<Context, Failure>)
    ensures r == HeaderParsed(ctx, header, env)
  {
    var c := ctx;
    for k := 0 to |header|
      invariant HeaderFrom(header, ctx, env) == HeaderFrom(header[k..], c, env)
    {
      assert header[k..][1..] == header[k + 1..];
      match SplitKeyValue(header[k], c.kvDelim) {
        case Err(e) =>
          return Err(e);
        case Ok((key, value)) =>
          var handler := GetHandler(key, env);
          var next, err := Process(handler, c, value, env);
          if err.Some? {
            if Essential(handler, env) {
              return Err(err.value);
            }
          }
          c := next;
      }
    }
    assert header[|header|..] == [];
    if !env.validate(c) {
      return Err(AscFormat(INCOMPLETE_HEADER_MSG));
    }
    return Ok(c);
  }

  /** An unknown key gets the null handler: not essential, and it changes nothing. */
  lemma UnknownKeyIgnored(key: string, ctx: Context, value: string, env: Env)
    requires key !in env.handlers
    ensures !Essential(GetHandler(key, env), env)
    ensures Handle(GetHandler(key, env), ctx, value, env) == (ctx, None)
  {
  }

  /**
   * Reading the header fails only at a line without the key delimiter or
   * at a line whose handler is essential; every other failure is passed
   * over.
   */
  lemma {:induction false} HeaderFailures(lines: seq<string>, ctx: Context, env: Env)
    ensures HeaderFrom(lines, ctx, env).Err? ==>
      exists k :: 0 <= k < |lines| &&
        (SplitKeyValue(lines[k], ctx.kvDelim).Err?
         || Essential(GetHandler(SplitKeyValue(lines[k], ctx.kvDelim).value.0, env), env))
  {
    if |lines| > 0 {
      match SplitKeyValue(lines[0], ctx.kvDelim)
      case Err(e) =>
      case Ok((key, value)) =>
        var h := GetHandler(key, env);
        var (next, err) := Handle(h, ctx, value, env);
        if !(err.Some? && Essential(h, env)) {
          HeaderFailures(lines[1..], next, env);
          if HeaderFrom(lines, ctx, env).Err? {
            var k :| 0 <= k < |lines[1..]| &&
              (SplitKeyValue(lines[1..][k], next.kvDelim).Err?
               || Essential(GetHandler(SplitKeyValue(lines[1..][k], next.kvDelim).value.0, env), env));
            assert lines[1..][k] == lines[k + 1];
          }
        }
    }
  }

  /**
   * Conversely, when every line splits and no key has an essential handler,
   * reading the header cannot fail, and the outcome rests on `validate`
   * alone.
   */
  lemma {:induction false} HeaderTolerant(lines: seq<string>, ctx: Context, env: Env)
    requires forall k :: 0 <= k < |lines| ==>
      SplitKeyValue(lines[k], ctx.kvDelim).Ok?
      && !Essential(GetHandler(SplitKeyValue(lines[k], ctx.kvDelim).value.0, env), env)
    ensures HeaderFrom(lines, ctx, env).Ok?
    ensures HeaderParsed(ctx, lines, env).Ok? <==> env.validate(HeaderFrom(lines, ctx, env).value)
  {
    if |lines| > 0 {
      var (key, value) := SplitKeyValue(lines[0], ctx.kvDelim).value;
      var (next, err) := Handle(GetHandler(key, env), ctx, value, env);
      forall k | 0 <= k < |lines[1..]|
        ensures SplitKeyValue(lines[1..][k], next.kvDelim).Ok?
          && !Essential(GetHandler(SplitKeyValue(lines[1..][k], next.kvDelim).value.0, env), env)
      {
        assert lines[1..][k] == lines[k + 1];
      }
      HeaderTolerant(lines[1..], next, env);
    }
  }
}
