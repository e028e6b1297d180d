/**
 * The CSV loader: the encodings it knows and their byte order marks, its
 * parameters, the check of a file's byte order mark, and the reading of a
 * text stream, line by line, into series of [x, y] points.
 */
module CsvLoader {
  import opened Wrappers
  import opened Strings
  import opened Bytes

  // ------------------------------------------------------------ encodings

  /** A text encoding: its name, the byte order mark its files may start with, its name for the user. */
  datatype Encoding = Encoding(name: string, bom: seq<byte>, canHaveBom: bool, displayedName: string)

  /** The default encoding: no name and no mark. */
  const NO_ENCODING := Encoding("", [], false, "")

  /** An encoding whose files may carry a mark exactly when it has one. */
  function MakeEncoding(name: string, bom: seq<byte>, displayedName: string): Encoding
  {
    Encoding(name, bom, |bom| > 0, displayedName)
  }

  /** The table of supported encodings as the source writes it, big-endian marks included. */
  const ENCODINGS_AS_WRITTEN: map<string, Encoding> := map[
    "ISO-8859-1" := MakeEncoding("ISO-8859-1", [], "ISO-8859-1 (Latin 1)"),
    "ISO-8859-2" := MakeEncoding("ISO-8859-2", [], "ISO-8859-2 (Latin 2)"),
    "windows-1250" := MakeEncoding("windows-1250", [], "Windows-1250 (cp1250)"),
    "windows-1251" := MakeEncoding("windows-1251", [], "Windows-1251 (cp1251)"),
    "windows-1252" := MakeEncoding("windows-1252", [], "Windows-1252 (cp1252)"),
    "UTF-8" := MakeEncoding("UTF-8", [0xEF, 0xBB, 0xBF], "UTF-8"),
    "UTF-16LE" := MakeEncoding("UTF-16LE", [0xFF, 0xFE], "UTF-16LE (Little Endian)"),
    "UTF-16BE" := MakeEncoding("UTF-16BE", [0xFF, 0xFF], "UTF-16BE (Big Endian)"),
    "UTF-32LE" := MakeEncoding("UTF-32LE", [0xFF, 0xFE, 0x00, 0x00], "UTF-32LE (Little Endian)"),
    "UTF-32BE" := MakeEncoding("UTF-32BE", [0x00, 0x00, 0xFF, 0xFF], "UTF-32BE (Big Endian)")]

  /** The supported encodings, with the big-endian marks that U+FEFF actually has. */
  const CORRECTED_ENCODINGS: map<string, Encoding> := ENCODINGS_AS_WRITTEN[
    "UTF-16BE" := MakeEncoding("UTF-16BE", [0xFE, 0xFF], "UTF-16BE (Big Endian)")][
    "UTF-32BE" := MakeEncoding("UTF-32BE", [0x00, 0x00, 0xFE, 0xFF], "UTF-32BE (Big Endian)")]

  /** The code point a byte order mark encodes. */
  const BYTE_ORDER_MARK: nat := 0xFEFF

  function Reverse<T>(s: seq<T>): (r: seq<T>)
    ensures |r| == |s|
  {
    if |s| == 0 then [] else Reverse(s[1..]) + [s[0]]
  }

  /** The three bytes of UTF-8 for a code point between U+0800 and U+FFFF. */
  function Utf8ThreeBytes(c: nat): seq<byte>
    requires 0x800 <= c < 0x1_0000
  {
    [0xE0 + c / 0x1000, 0x80 + c / 0x40 % 0x40, 0x80 + c % 0x40]
  }

  /** Every table entry is filed under its own name and may carry a mark exactly when it has one. */
  lemma EncodingsConsistent()
    ensures forall id | id in CORRECTED_ENCODINGS ::
      CORRECTED_ENCODINGS[id].name == id
      && (CORRECTED_ENCODINGS[id].canHaveBom <==> |CORRECTED_ENCODINGS[id].bom| > 0)
  {
  }

  /** The 8-bit encodings have no mark, and UTF-8's is the three UTF-8 bytes of U+FEFF. */
  lemma EightBitAndUtf8Marks()
    ensures forall id | id in CORRECTED_ENCODINGS && id !in UNICODE_ENCODINGS :: CORRECTED_ENCODINGS[id].bom == []
    ensures CORRECTED_ENCODINGS["UTF-8"].bom == Utf8ThreeBytes(BYTE_ORDER_MARK)
  {
  }

  /** The encodings whose files may start with a mark. */
  const UNICODE_ENCODINGS := {"UTF-8", "UTF-16LE", "UTF-16BE", "UTF-32LE", "UTF-32BE"}

  /** The UTF-16 marks are U+FEFF's two bytes, least significant first for LE and reversed for BE. */
  lemma Utf16Marks()
    ensures CORRECTED_ENCODINGS["UTF-16LE"].bom == EncodeLE(BYTE_ORDER_MARK, 2)
    ensures CORRECTED_ENCODINGS["UTF-16BE"].bom == Reverse(EncodeLE(BYTE_ORDER_MARK, 2))
  {
    assert Pow256(2) == 0x1_0000 by {
      assert Pow256(1) == 256 by { assert Pow256(0) == 1; }
    }
    assert EncodeLE(0xFE, 1) == [0xFE] by { assert EncodeLE(0, 0) == []; }
    assert EncodeLE(BYTE_ORDER_MARK, 2) == [0xFF, 0xFE];
    assert Reverse([0xFF, 0xFE]) == [0xFE, 0xFF] by {
      assert Reverse([0xFE]) == [0xFE] by { assert [0xFE][1..] == []; }
      assert [0xFF, 0xFE][1..] == [0xFE];
    }
  }

  /** The UTF-32 marks are U+FEFF's four bytes, least significant first for LE and reversed for BE. */
  lemma Utf32Marks()
    ensures CORRECTED_ENCODINGS["UTF-32LE"].bom == EncodeLE(BYTE_ORDER_MARK, 4)
    ensures CORRECTED_ENCODINGS["UTF-32BE"].bom == Reverse(EncodeLE(BYTE_ORDER_MARK, 4))
  {
    var le: seq<byte> := [0xFF, 0xFE, 0, 0];
    assert CORRECTED_ENCODINGS["UTF-32LE"].bom == le;
    assert CORRECTED_ENCODINGS["UTF-32BE"].bom == [0, 0, 0xFE, 0xFF];
    assert Pow256(1) == 256 by { assert Pow256(0) == 1; }
    assert Pow256(2) == 0x1_0000;
    assert Pow256(3) == 0x100_0000;
    assert Pow256(4) == 0x1_0000_0000;
    assert EncodeLE(0, 1) == [0] by { assert EncodeLE(0, 0) == []; }
    assert EncodeLE(0, 2) == [0, 0];
    assert EncodeLE(0xFE, 3) == [0xFE, 0, 0];
    assert EncodeLE(BYTE_ORDER_MARK, 4) == le;
    assert le[1..][1..][1..][1..] == [];
    assert Reverse(le[1..][1..][1..]) == [0];
    assert Reverse(le[1..][1..]) == [0, 0];
    assert Reverse(le[1..]) == [0, 0, 0xFE];
  }

  /** As written, neither big-endian mark is the reverse of its little-endian one. */
  lemma BigEndianMarksAsWritten()
    ensures ENCODINGS_AS_WRITTEN["UTF-16BE"].bom != Reverse(ENCODINGS_AS_WRITTEN["UTF-16LE"].bom)
    ensures ENCODINGS_AS_WRITTEN["UTF-32BE"].bom != Reverse(ENCODINGS_AS_WRITTEN["UTF-32LE"].bom)
  {
    assert Reverse(ENCODINGS_AS_WRITTEN["UTF-16LE"].bom)[0] == 0xFE by {
      assert ENCODINGS_AS_WRITTEN["UTF-16LE"].bom == [0xFF, 0xFE];
      assert Reverse([0xFE]) == [0xFE] by { assert [0xFE][1..] == []; }
      assert [0xFF, 0xFE][1..] == [0xFE];
    }
    var le: seq<byte> := [0xFF, 0xFE, 0, 0];
    assert ENCODINGS_AS_WRITTEN["UTF-32LE"].bom == le;
    assert Reverse(le)[2] == 0xFE by {
      assert le[1..][1..][1..][1..] == [];
      assert Reverse(le[1..][1..][1..]) == [0];
      assert Reverse(le[1..][1..]) == [0, 0];
      assert Reverse(le[1..]) == [0, 0, 0xFE];
    }
  }

  // ------------------------------------------------------------ parameters

  /** What the loader is told: the layout of the table, the encoding, whether a mark is to be read. */
  datatype Parameters = Parameters(
    delimiter: char,
    decimalSeparator: char,
    xColumn: int,
    yColumn: int,
    multipleYcols: bool,
    hasHeader: bool,
    linesToSkip: int,
    encodingId: string,
    readBom: bool,
    isValid: bool)

  /** The default parameters, which stand for "nothing to load". */
  const NO_PARAMETERS := Parameters('\0', '.', 0, 0, false, false, 0, "", false, false)

  /** Parameters given in full, which are valid. */
  function LoaderParameters(delimiter: char, decimalSeparator: char, xColumn: int, yColumn: int,
                            multipleYcols: bool, hasHeader: bool, linesToSkip: int,
                            encodingId: string, readBom: bool): Parameters
  {
    Parameters(delimiter, decimalSeparator, xColumn, yColumn, multipleYcols, hasHeader,
               linesToSkip, encodingId, readBom, true)
  }

  // ------------------------------------------------------------ results

  type Point = (real, real)

  /** What a read yields: one series per y column, the axis labels, and whether it is valid. */
  datatype DataPack = DataPack(dataVec: seq<seq<Point>>, xType: string, yTypes: seq<string>, valid: bool)

  /** The empty, invalid pack returned after a warning. */
  const NO_DATA_PACK := DataPack([], "", [], false)

  /** The kinds of malformed input the loader's error dialog tells apart. */
  datatype MalformedKind = BadDelimiter | BadValueData | PossiblyIncorrectSettings

  /** The warnings a read shows the user instead of (or besides) returning data. */
  datatype Notice =
    | NoSuchFile
    | CannotOpen
    | BomNotFound
    | BomMismatch
    | NoData
    | TooFewLines
    | Malformed(kind: MalformedKind, lineNo: int, fileName: string, badLine: string)

  const CLIPBOARD_NAME := "<clipboard>"

  // ------------------------------------------------------------ byte order mark

  /** The mark the table holds for an encoding; an unknown identifier has none. */
  function MarkOf(encodings: map<string, Encoding>, id: string): seq<byte>
  {
    if id in encodings then encodings[id].bom else []
  }

  /** The check of `readFile`: the bytes after the expected mark, or the warning shown. */
  function CheckBom(encodings: map<string, Encoding>, p: Parameters, file: seq<byte>): (r: Result<seq<byte>, Notice>)
  {
    if !p.readBom then Ok(file)
    else
      var bom := MarkOf(encodings, p.encodingId);
      if |file| < |bom| then Err(BomNotFound)
      else if file[..|bom|] != bom then Err(BomMismatch)
      else Ok(file[|bom|..])
  }

  /**
   * Without `readBom` the bytes pass untouched; with it they pass exactly
   * when they start with the encoding's mark, which is then removed.
   */
  lemma CheckBomMeaning(encodings: map<string, Encoding>, p: Parameters, file: seq<byte>)
    ensures !p.readBom ==> CheckBom(encodings, p, file) == Ok(file)
    ensures p.readBom ==> (CheckBom(encodings, p, file).Ok? <==> MarkOf(encodings, p.encodingId) <= file)
    ensures p.readBom && CheckBom(encodings, p, file).Ok? ==>
      file == MarkOf(encodings, p.encodingId) + CheckBom(encodings, p, file).value
  {
    if p.readBom {
      var bom := MarkOf(encodings, p.encodingId);
      if |file| >= |bom| {
        assert file == file[..|bom|] + file[|bom|..];
      }
    }
  }

  /**
   * A UTF-16BE file that starts with its real mark, FE FF, is refused by
   * the table as written and accepted by the corrected one.
   */
  lemma BigEndianMarkRefused(p: Parameters, rest: seq<byte>)
    requires p.readBom && p.encodingId == "UTF-16BE"
    ensures CheckBom(ENCODINGS_AS_WRITTEN, p, [0xFE, 0xFF] + rest) == Err(BomMismatch)
    ensures CheckBom(CORRECTED_ENCODINGS, p, [0xFE, 0xFF] + rest) == Ok(rest)
  {
    var file: seq<byte> := [0xFE, 0xFF] + rest;
    assert file[..2] == [0xFE, 0xFF];
    assert file[2..] == rest;
  }

  // ------------------------------------------------------------ values

  /** `s` with every `from` replaced by `to`. */
  function Replace(s: string, from: char, to: char): (r: string)
  {
    seq(|s|, k requires 0 <= k < |s| => if s[k] == from then to else s[k])
  }

  /**
   * `sanitizeDecSep`: the value with the decimal separator turned into a
   * period; `None` where a value holds a period although the separator is
   * something else.
   */
  function SanitizeDecSep(s: string, sep: char): Option<string>
  {
    if sep != '.' && !Lacks(s, '.') then None else Some(Replace(s, sep, '.'))
  }

  /**
   * The value is refused exactly when it holds a period and the separator is
   * not one; otherwise every separator, and nothing else, becomes a period,
   * and turning the periods back gives the value again.
   */
  lemma SanitizeMeaning(s: string, sep: char)
    ensures SanitizeDecSep(s, sep).None? <==> sep != '.' && exists k :: 0 <= k < |s| && s[k] == '.'
    ensures SanitizeDecSep(s, sep).Some? ==>
      var t := SanitizeDecSep(s, sep).value;
      |t| == |s|
      && (forall k :: 0 <= k < |s| ==> (s[k] == sep ==> t[k] == '.') && (s[k] != sep ==> t[k] == s[k]))
      && (sep != '.' ==> Replace(t, '.', sep) == s)
  {
    if SanitizeDecSep(s, sep).Some? && sep != '.' {
      var t := SanitizeDecSep(s, sep).value;
      var u := Replace(t, '.', sep);
      assert |u| == |s|;
      forall k | 0 <= k < |s| ensures u[k] == s[k] {
        assert s[k] != '.';
      }
    }
  }

  /** Every element given a value by `f`, or `None` when one has none. */
  function AllOf<T>(s: seq<string>, f: string -> Option<T>): (r: Option<seq<T>>)
    ensures r.Some? ==> |r.value| == |s| && forall k :: 0 <= k < |s| ==> f(s[k]) == Some(r.value[k])
    ensures r.None? ==> exists k :: 0 <= k < |s| && f(s[k]).None?
  {
    if |s| == 0 then Some([])
    else match f(s[0])
      case None => None
      case Some(v) =>
        match AllOf(s[1..], f)
        case None => assert s[1..][0..] == s[1..]; None
        case Some(vs) => Some([v] + vs)
  }

  /** The sanitizing of one value, as a function. */
  function Sanitizer(sep: char): string -> Option<string>
  {
    s => SanitizeDecSep(s, sep)
  }

  // ------------------------------------------------------------ rows

  /**
   * One data line of a table with several y columns: its x and its y
   * values, or why it is refused — a wrong number of fields or a stray
   * period reads as a bad delimiter, a field that is no number as bad data.
   */
  function MultiRow(line: string, delimiter: char, sep: char, columns: nat,
                    readValue: string -> Option<real>): (r: Result<(real, seq<real>), MalformedKind>)
    ensures r.Ok? ==> columns >= 1 && |r.value.1| == columns - 1
    ensures r.Err? ==> r.error != PossiblyIncorrectSettings
  {
    var values := Pieces(line, delimiter);
    if |values| != columns then Err(BadDelimiter)
    else match AllOf(values, Sanitizer(sep))
      case None => Err(BadDelimiter)
      case Some(clean) =>
        match AllOf(clean, readValue)
        case None => Err(BadValueData)
        case Some(nums) => Ok((nums[0], nums[1..]))
  }

  function MultiRowOf(delimiter: char, sep: char, columns: nat,
                      readValue: string -> Option<real>): string -> Result<(real, seq<real>), MalformedKind>
  {
    line => MultiRow(line, delimiter, sep, columns, readValue)
  }

  /** The number in field `i` of a line, after the separator is sanitized. */
  function FieldValue(line: string, delimiter: char, sep: char, i: nat,
                      readValue: string -> Option<real>): Option<real>
  {
    var values := Pieces(line, delimiter);
    if i >= |values| then None
    else match SanitizeDecSep(values[i], sep)
      case None => None
      case Some(v) => readValue(v)
  }

  /** An accepted row has the line's first field as its x and the following fields as its ys. */
  lemma MultiRowFields(line: string, delimiter: char, sep: char, columns: nat, readValue: string -> Option<real>)
    requires MultiRow(line, delimiter, sep, columns, readValue).Ok?
    ensures var r := MultiRow(line, delimiter, sep, columns, readValue).value;
      |Pieces(line, delimiter)| == columns
      && FieldValue(line, delimiter, sep, 0, readValue) == Some(r.0)
      && forall j :: 0 <= j < |r.1| ==> FieldValue(line, delimiter, sep, j + 1, readValue) == Some(r.1[j])
  {
  }

  /**
   * One data line of a table with one y column: its [x, y] point, or why it
   * is refused. The y field is sanitized after the x field, in the same list
   * of values, so it sees the x field's changes when the columns coincide.
   */
  function SingleRow(line: string, delimiter: char, sep: char, xColumn: int, yColumn: int, highColumn: int,
                     readValue: string -> Option<real>): (r: Result<Point, MalformedKind>)
    requires 1 <= xColumn <= highColumn && 1 <= yColumn <= highColumn
    ensures r.Err? ==> r.error != PossiblyIncorrectSettings
  {
    var values := Pieces(line, delimiter);
    if |values| < highColumn then Err(BadDelimiter)
    else match SanitizeDecSep(values[xColumn - 1], sep)
      case None => Err(BadDelimiter)
      case Some(sx) =>
        var after := values[xColumn - 1 := sx];
        match SanitizeDecSep(after[yColumn - 1], sep)
        case None => Err(BadDelimiter)
        case Some(sy) =>
          match readValue(sx)
          case None => Err(BadValueData)
          case Some(x) =>
            match readValue(sy)
            case None => Err(BadValueData)
            case Some(y) => Ok((x, y))
  }

  function SingleRowOf(delimiter: char, sep: char, xColumn: int, yColumn: int, highColumn: int,
                       readValue: string -> Option<real>): string -> Result<Point, MalformedKind>
    requires 1 <= xColumn <= highColumn && 1 <= yColumn <= highColumn
  {
    line => SingleRow(line, delimiter, sep, xColumn, yColumn, highColumn, readValue)
  }

  /** With distinct columns, an accepted point is the numbers in the x and the y field of the line. */
  lemma SingleRowFields(line: string, delimiter: char, sep: char, xColumn: int, yColumn: int, highColumn: int,
                        readValue: string -> Option<real>)
    requires 1 <= xColumn <= highColumn && 1 <= yColumn <= highColumn && xColumn != yColumn
    ensures var r := SingleRow(line, delimiter, sep, xColumn, yColumn, highColumn, readValue);
      r.Ok? <==> |Pieces(line, delimiter)| >= highColumn
                 && FieldValue(line, delimiter, sep, xColumn - 1, readValue).Some?
                 && FieldValue(line, delimiter, sep, yColumn - 1, readValue).Some?
    ensures var r := SingleRow(line, delimiter, sep, xColumn, yColumn, highColumn, readValue);
      r.Ok? ==> r.value == (FieldValue(line, delimiter, sep, xColumn - 1, readValue).value,
                            FieldValue(line, delimiter, sep, yColumn - 1, readValue).value)
  {
  }

  // ------------------------------------------------------------ series

  /** Series `j` holds, for every row in order, the row's x with its `j`-th y. */
  function SeriesOf(rows: seq<(real, seq<real>)>, k: nat): (s: seq<seq<Point>>)
    requires forall r :: 0 <= r < |rows| ==> |rows[r].1| == k
    ensures |s| == k && forall j :: 0 <= j < k ==> |s[j]| == |rows|
  {
    seq(k, j requires 0 <= j < k => seq(|rows|, r requires 0 <= r < |rows| => (rows[r].0, rows[r].1[j])))
  }

  /** One more row adds its point at the end of every series. */
  lemma SeriesStep(rows: seq<(real, seq<real>)>, row: (real, seq<real>), k: nat, j: nat)
    requires forall r :: 0 <= r < |rows| ==> |rows[r].1| == k
    requires |row.1| == k && j < k
    ensures SeriesOf(rows + [row], k)[j] == SeriesOf(rows, k)[j] + [(row.0, row.1[j])]
  {
    var longer := rows + [row];
    assert forall r :: 0 <= r < |rows| ==> longer[r] == rows[r];
  }

  /**
   * `readStreamMulti`: the series of the lines from `from` on, up to the
   * first refused line, and the warning for that line, whose number counts
   * the blank lines skipped before the table.
   */
  function MultiRead(lines: seq<string>, delimiter: char, sep: char, columns: nat, emptyLines: nat,
                     from: nat, fileName: string, readValue: string -> Option<real>): (seq<seq<Point>>, Option<Notice>)
    requires columns >= 2 && from <= |lines|
  {
    var c := Convert(lines[from..], MultiRowOf(delimiter, sep, columns, readValue));
    ConvertStops(lines[from..], MultiRowOf(delimiter, sep, columns, readValue));
    assert forall r :: 0 <= r < |c.0| ==> |c.0[r].1| == columns - 1 by {
      ConvertMeaning(lines[from..], MultiRowOf(delimiter, sep, columns, readValue));
      forall r | 0 <= r < |c.0| ensures |c.0[r].1| == columns - 1 {
        assert MultiRow(lines[from..][r], delimiter, sep, columns, readValue) == Ok(c.0[r]);
      }
    }
    (SeriesOf(c.0, columns - 1),
     match c.1
     case None => None
     case Some(kind) =>
       Some(Malformed(kind, from + |c.0| + emptyLines + 1, fileName, lines[from + |c.0|])))
  }

  /** `readStreamSingle`: the one series of the lines from `from` on, up to the first refused line. */
  function SingleRead(lines: seq<string>, delimiter: char, sep: char, xColumn: int, yColumn: int, highColumn: int,
                      emptyLines: nat, from: nat, fileName: string,
                      readValue: string -> Option<real>): (seq<seq<Point>>, Option<Notice>)
    requires 1 <= xColumn <= highColumn && 1 <= yColumn <= highColumn && from <= |lines|
  {
    var c := Convert(lines[from..], SingleRowOf(delimiter, sep, xColumn, yColumn, highColumn, readValue));
    ConvertStops(lines[from..], SingleRowOf(delimiter, sep, xColumn, yColumn, highColumn, readValue));
    ([c.0],
     match c.1
     case None => None
     case Some(kind) =>
       Some(Malformed(kind, from + |c.0| + emptyLines + 1, fileName, lines[from + |c.0|])))
  }

  /** Every accepted line of a several-column table adds its x and its ys to the series, in order. */
  lemma {:induction false} MultiReadPoints(lines: seq<string>, delimiter: char, sep: char, columns: nat,
                                           emptyLines: nat, from: nat, fileName: string,
                                           readValue: string -> Option<real>)
    requires columns >= 2 && from <= |lines|
    ensures var m := MultiRead(lines, delimiter, sep, columns, emptyLines, from, fileName, readValue);
      |m.0| == columns - 1
      && (forall j :: 0 <= j < columns - 1 ==> |m.0[j]| == |m.0[0]|)
      && from + |m.0[0]| <= |lines|
      && (forall j, r :: 0 <= j < columns - 1 && 0 <= r < |m.0[j]| ==>
            FieldValue(lines[from + r], delimiter, sep, 0, readValue) == Some(m.0[j][r].0)
            && FieldValue(lines[from + r], delimiter, sep, j + 1, readValue) == Some(m.0[j][r].1))
      && (m.1.None? ==> from + |m.0[0]| == |lines|)
      && (m.1.Some? ==>
            from + |m.0[0]| < |lines|
            && m.1.value == Malformed(m.1.value.kind, from + |m.0[0]| + emptyLines + 1, fileName, lines[from + |m.0[0]|])
            && MultiRow(lines[from + |m.0[0]|], delimiter, sep, columns, readValue) == Err(m.1.value.kind))
  {
    var conv := MultiRowOf(delimiter, sep, columns, readValue);
    var parts := lines[from..];
    var c := Convert(parts, conv);
    var k := columns - 1;
    var m := MultiRead(lines, delimiter, sep, columns, emptyLines, from, fileName, readValue);
    ConvertStops(parts, conv);
    assert forall r :: 0 <= r < |c.0| ==> |c.0[r].1| == k by {
      ConvertMeaning(parts, conv);
      forall r | 0 <= r < |c.0| ensures |c.0[r].1| == k {
        assert MultiRow(parts[r], delimiter, sep, columns, readValue) == Ok(c.0[r]);
      }
    }
    assert m.0 == SeriesOf(c.0, k);
    forall j, r | 0 <= j < k && 0 <= r < |m.0[j]|
      ensures FieldValue(lines[from + r], delimiter, sep, 0, readValue) == Some(m.0[j][r].0)
      ensures FieldValue(lines[from + r], delimiter, sep, j + 1, readValue) == Some(m.0[j][r].1)
    {
      assert m.0[j][r] == (c.0[r].0, c.0[r].1[j]);
      assert parts[r] == lines[from + r];
      assert MultiRow(lines[from + r], delimiter, sep, columns, readValue) == Ok(c.0[r]) by {
        ConvertMeaning(parts, conv);
      }
      MultiRowFields(lines[from + r], delimiter, sep, columns, readValue);
    }
    if c.1.Some? {
      assert parts[|c.0|] == lines[from + |c.0|];
      assert conv(parts[|c.0|]) == Err(c.1.value) by { ConvertMeaning(parts, conv); }
    } else {
      assert |c.0| == |parts| by { ConvertMeaning(parts, conv); }
    }
  }



  /** Every accepted line of a one-column table adds its point to the series, in order. */
  lemma {:induction false} SingleReadPoints(lines: seq<string>, delimiter: char, sep: char,
                                            xColumn: int, yColumn: int, highColumn: int,
                                            emptyLines: nat, from: nat, fileName: string,
                                            readValue: string -> Option<real>)
    requires 1 <= xColumn <= highColumn && 1 <= yColumn <= highColumn
    requires from <= |lines|
    ensures var s := SingleRead(lines, delimiter, sep, xColumn, yColumn, highColumn, emptyLines, from, fileName, readValue);
      |s.0| == 1 && from + |s.0[0]| <= |lines|
      && (forall r :: 0 <= r < |s.0[0]| && xColumn != yColumn ==>
            FieldValue(lines[from + r], delimiter, sep, xColumn - 1, readValue) == Some(s.0[0][r].0)
            && FieldValue(lines[from + r], delimiter, sep, yColumn - 1, readValue) == Some(s.0[0][r].1))
      && (s.1.None? ==> from + |s.0[0]| == |lines|)
      && (s.1.Some? ==>
            from + |s.0[0]| < |lines|
            && s.1.value == Malformed(s.1.value.kind, from + |s.0[0]| + emptyLines + 1, fileName, lines[from + |s.0[0]|])
            && SingleRow(lines[from + |s.0[0]|], delimiter, sep, xColumn, yColumn, highColumn, readValue)
               == Err(s.1.value.kind))
  {
    var conv := SingleRowOf(delimiter, sep, xColumn, yColumn, highColumn, readValue);
    var c := Convert(lines[from..], conv);
    ConvertMeaning(lines[from..], conv);
    forall r | 0 <= r < |c.0| && xColumn != yColumn
      ensures FieldValue(lines[from + r], delimiter, sep, xColumn - 1, readValue) == Some(c.0[r].0)
      ensures FieldValue(lines[from + r], delimiter, sep, yColumn - 1, readValue) == Some(c.0[r].1)
    {
      assert lines[from..][r] == lines[from + r];
      assert conv(lines[from + r]) == Ok(c.0[r]);
      SingleRowFields(lines[from + r], delimiter, sep, xColumn, yColumn, highColumn, readValue);
    }
    if c.1.Some? {
      assert lines[from..][|c.0|] == lines[from + |c.0|];
    }
  }

  /** The inner loop of `readStreamMulti`: the row's x with its `j`-th y goes to the end of series `j`. */
  method AddRow(series: seq<seq<Point>>, row: (real, seq<real>)) returns (next: seq<seq<Point>>)
    requires |row.1| == |series|
    ensures |next| == |series|
    ensures forall j :: 0 <= j < |series| ==> next[j] == series[j] + [(row.0, row.1[j])]
  {
    next := series;
    for jdx := 0 to |series|
      invariant |next| == |series|
      invariant forall j :: 0 <= j < jdx ==> next[j] == series[j] + [(row.0, row.1[j])]
      invariant forall j :: jdx <= j < |series| ==> next[j] == series[j]
    {
      next := next[jdx := next[jdx] + [(row.0, row.1[jdx])]];
    }
  }

  /**
   * The loop of `readStreamMulti` over rows as `conv` reads them: each
   * accepted row adds a point to every series, and the first refused row
   * stops it.
   */
  method FillSeries<E>(parts: seq<string>, conv: string -> Result<(real, seq<real>), E>, k: nat)
    returns (series: seq<seq<Point>>, accepted: nat, err: Option<E>)
    requires forall line :: conv(line).Ok? ==> |conv(line).value.1| == k
    ensures var c := Convert(parts, conv);
      accepted == |c.0| && err == c.1
      && (forall r :: 0 <= r < |c.0| ==> |c.0[r].1| == k)
      && series == SeriesOf(c.0, k)
  {
    series := seq(k, _ => []);
    ghost var got: seq<(real, seq<real>)> := [];
    assert series == SeriesOf(got, k);
    assert parts[0..] == parts;
    assert [] + Convert(parts, conv).0 == Convert(parts, conv).0;
    for idx := 0 to |parts|
      invariant |got| == idx
      invariant forall r :: 0 <= r < |got| ==> |got[r].1| == k
      invariant series == SeriesOf(got, k)
      invariant var c := Convert(parts[idx..], conv); Convert(parts, conv) == (got + c.0, c.1)
    {
      ghost var tail := Convert(parts[idx + 1..], conv);
      assert parts[idx..][1..] == parts[idx + 1..];
      match conv(parts[idx]) {
        case Err(e) =>
          assert Convert(parts[idx..], conv) == ([], Some(e));
          assert got + [] == got;
          return series, idx, Some(e);
        case Ok(row) =>
          var next := AddRow(series, row);
          forall j | 0 <= j < k ensures next[j] == SeriesOf(got + [row], k)[j] {
            SeriesStep(got, row, k, j);
          }
          assert Convert(parts[idx..], conv) == ([row] + tail.0, tail.1);
          Assoc3(got, [row], tail.0);
          series := next;
          got := got + [row];
      }
    }
    assert parts[|parts|..] == [];
    assert got + [] == got;
    accepted, err := |parts|, None;
  }

  /**
   * `readStreamMulti`: the series of the lines from `from` on, with the
   * warning for the first refused line, numbered in the stream.
   */
  method ReadStreamMulti(lines: seq<string>, delimiter: char, sep: char, columns: nat, emptyLines: nat,
                         from: nat, fileName: string, readValue: string -> Option<real>)
    returns (series: seq<seq<Point>>, notice: Option<Notice>)
    requires columns >= 2 && from <= |lines|
    ensures (series, notice) == MultiRead(lines, delimiter, sep, columns, emptyLines, from, fileName, readValue)
  {
    var conv := MultiRowOf(delimiter, sep, columns, readValue);
    var linesRead, err;
    series, linesRead, err := FillSeries(lines[from..], conv, columns - 1);
    ghost var c := Convert(lines[from..], conv);
    ConvertStops(lines[from..], conv);
    assert linesRead == |c.0| && err == c.1;
    if err.None? {
      notice := None;
    } else {
      assert from + linesRead < |lines|;
      notice := Some(Malformed(err.value, from + linesRead + emptyLines + 1, fileName, lines[from + linesRead]));
    }
  }

  /** `readStreamSingle`: append each line's point until a line is refused. */
  method ReadStreamSingle(lines: seq<string>, delimiter: char, sep: char, xColumn: int, yColumn: int,
                          highColumn: int, emptyLines: nat, from: nat, fileName: string,
                          readValue: string -> Option<real>)
    returns (series: seq<seq<Point>>, notice: Option<Notice>)
    requires 1 <= xColumn <= highColumn && 1 <= yColumn <= highColumn && from <= |lines|
    ensures (series, notice)
      == SingleRead(lines, delimiter, sep, xColumn, yColumn, highColumn, emptyLines, from, fileName, readValue)
  {
    var conv := SingleRowOf(delimiter, sep, xColumn, yColumn, highColumn, readValue);
    var points, err := AppendConverted([], lines[from..], conv);
    ghost var c := Convert(lines[from..], conv);
    ConvertStops(lines[from..], conv);
    assert [] + c.0 == c.0;
    assert points == c.0 && err == c.1;
    series := [points];
    if err.None? {
      notice := None;
    } else {
      assert from + |points| < |lines|;
      notice := Some(Malformed(err.value, from + |points| + emptyLines + 1, fileName, lines[from + |points|]));
    }
  }

  // ------------------------------------------------------------ headers

  /** The header of a table with several y columns: its width, its labels, where the data starts. */
  datatype MultiHeader = MultiHeader(columns: nat, xType: string, yTypes: seq<string>, linesRead: nat)

  /** `readHeaderMulti`: the first line after the skipped ones fixes the width; `Err` gives the line. */
  function ReadHeaderMulti(lines: seq<string>, delimiter: char, hasHeader: bool, linesRead: nat): (r: Result<MultiHeader, string>)
    requires linesRead < |lines|
    ensures r.Ok? ==> r.value.columns >= 2 && r.value.linesRead <= |lines|
  {
    var line := lines[linesRead];
    var header := Pieces(line, delimiter);
    if |header| < 2 then Err(line)
    else if hasHeader then Ok(MultiHeader(|header|, header[0], header[1..], linesRead + 1))
    else Ok(MultiHeader(|header|, "", [], linesRead))
  }

  /**
   * The line is refused exactly when it has no delimiter; otherwise the
   * table has one column more than the line has delimiters, and a header
   * line is consumed and is its labels joined by the delimiter.
   */
  lemma HeaderMultiMeaning(lines: seq<string>, delimiter: char, hasHeader: bool, linesRead: nat)
    requires linesRead < |lines|
    ensures var r := ReadHeaderMulti(lines, delimiter, hasHeader, linesRead);
      (r.Err? <==> Lacks(lines[linesRead], delimiter))
      && (r.Err? ==> r.error == lines[linesRead])
      && (r.Ok? ==> r.value.columns == Count(lines[linesRead], delimiter) + 1)
      && (r.Ok? && hasHeader ==>
            r.value.linesRead == linesRead + 1
            && |r.value.yTypes| == r.value.columns - 1
            && Join([r.value.xType] + r.value.yTypes, delimiter) == lines[linesRead])
      && (r.Ok? && !hasHeader ==> r.value == MultiHeader(r.value.columns, "", [], linesRead))
  {
    var line := lines[linesRead];
    PiecesShape(line, delimiter);
    CountLacks(line, delimiter);
    JoinPieces(line, delimiter);
    var header := Pieces(line, delimiter);
    if |header| >= 2 {
      assert [header[0]] + header[1..] == header;
    }
  }

  /** The header of a table with one y column: its two labels and where the data starts. */
  datatype SingleHeader = SingleHeader(xType: string, yType: string, linesRead: nat)

  /** `readHeaderSingle`: the first line must have as many fields as the higher column asks for. */
  function ReadHeaderSingle(lines: seq<string>, delimiter: char, xColumn: int, yColumn: int,
                            hasHeader: bool, highColumn: int, linesRead: nat): (r: Result<SingleHeader, string>)
    requires linesRead < |lines| && 1 <= xColumn <= highColumn && 1 <= yColumn <= highColumn
    ensures r.Ok? ==> r.value.linesRead <= |lines|
  {
    var line := lines[linesRead];
    var header := Pieces(line, delimiter);
    if |header| < highColumn then Err(line)
    else if hasHeader then Ok(SingleHeader(header[xColumn - 1], header[yColumn - 1], linesRead + 1))
    else Ok(SingleHeader("", "", linesRead))
  }

  /**
   * The line is refused exactly when it has fewer delimiters than the higher
   * column needs; a header line is consumed and gives the fields of the x
   * and the y column as labels, neither holding a delimiter.
   */
  lemma HeaderSingleMeaning(lines: seq<string>, delimiter: char, xColumn: int, yColumn: int,
                            hasHeader: bool, highColumn: int, linesRead: nat)
    requires linesRead < |lines| && 1 <= xColumn <= highColumn && 1 <= yColumn <= highColumn
    ensures var r := ReadHeaderSingle(lines, delimiter, xColumn, yColumn, hasHeader, highColumn, linesRead);
      (r.Err? <==> Count(lines[linesRead], delimiter) + 1 < highColumn)
      && (r.Err? ==> r.error == lines[linesRead])
      && (r.Ok? && hasHeader ==>
            r.value.linesRead == linesRead + 1
            && r.value.xType == Pieces(lines[linesRead], delimiter)[xColumn - 1]
            && r.value.yType == Pieces(lines[linesRead], delimiter)[yColumn - 1]
            && Lacks(r.value.xType, delimiter) && Lacks(r.value.yType, delimiter))
      && (r.Ok? && !hasHeader ==> r.value == SingleHeader("", "", linesRead))
  {
    PiecesShape(lines[linesRead], delimiter);
  }

  // ------------------------------------------------------------ the stream

  /** A line that `trimmed()` empties: every character is white space to Qt. */
  predicate IsBlank(line: string)
  {
    forall k :: 0 <= k < |line| ==> IsQtSpace(line[k])
  }

  /** `QChar::isSpace`: the separators of Unicode categories Zs, Zl and Zp, tab to carriage return, and U+0085. */
  predicate IsQtSpace(c: char)
  {
    c == ' ' || '\t' <= c <= '\r' || c == '\U{0085}' || c == '\U{00A0}' || c == '\U{1680}'
    || '\U{2000}' <= c <= '\U{200A}' || c == '\U{2028}' || c == '\U{2029}' || c == '\U{202F}'
    || c == '\U{205F}' || c == '\U{3000}'
  }

  /** How many blank lines the stream starts with. */
  function LeadingBlanks(input: seq<string>): (n: nat)
    ensures n <= |input|
  {
    if |input| == 0 || !IsBlank(input[0]) then 0 else 1 + LeadingBlanks(input[1..])
  }

  /** `LeadingBlanks` is the length of the run of blank lines that the first other line ends. */
  lemma {:induction false} LeadingBlanksMeaning(input: seq<string>, e: nat)
    requires e <= |input|
    ensures LeadingBlanks(input) == e <==>
      (forall k :: 0 <= k < e ==> IsBlank(input[k])) && (e < |input| ==> !IsBlank(input[e]))
  {
    if |input| > 0 && IsBlank(input[0]) {
      if e > 0 {
        LeadingBlanksMeaning(input[1..], e - 1);
        if (forall k :: 0 <= k < e - 1 ==> IsBlank(input[1..][k])) {
          forall k | 0 <= k < e ensures IsBlank(input[k]) {
            if k > 0 { assert input[k] == input[1..][k - 1]; }
          }
        }
        if (forall k :: 0 <= k < e ==> IsBlank(input[k])) {
          forall k | 0 <= k < e - 1 ensures IsBlank(input[1..][k]) {
            assert input[1..][k] == input[k + 1];
          }
        }
      }
    }
  }

  function HighColumn(xColumn: int, yColumn: int): int
  {
    if yColumn > xColumn then yColumn else xColumn
  }

  /**
   * `readStream`: skip the leading blank lines, keep the rest, refuse a
   * stream with no line or fewer lines than are to be skipped, then read the
   * header and the data in the layout the parameters name. A refused header
   * gives nothing; a refused data line keeps the lines before it.
   */
  function StreamRead(input: seq<string>, p: Parameters, fileName: string,
                      readValue: string -> Option<real>): (DataPack, Option<Notice>)
    requires p.linesToSkip >= 0
    requires !p.multipleYcols ==> p.xColumn >= 1 && p.yColumn >= 1
  {
    var emptyLines := LeadingBlanks(input);
    var lines := input[emptyLines..];
    if |lines| < 1 then (NO_DATA_PACK, Some(NoData))
    else if |lines| < p.linesToSkip + 1 then (NO_DATA_PACK, Some(TooFewLines))
    else if p.multipleYcols then
      match ReadHeaderMulti(lines, p.delimiter, p.hasHeader, p.linesToSkip)
      case Err(line) =>
        (NO_DATA_PACK, Some(Malformed(PossiblyIncorrectSettings, p.linesToSkip, fileName, line)))
      case Ok(h) =>
        var m := MultiRead(lines, p.delimiter, p.decimalSeparator, h.columns, emptyLines, h.linesRead, fileName, readValue);
        (DataPack(m.0, h.xType, h.yTypes, true), m.1)
    else
      var high := HighColumn(p.xColumn, p.yColumn);
      match ReadHeaderSingle(lines, p.delimiter, p.xColumn, p.yColumn, p.hasHeader, high, p.linesToSkip)
      case Err(line) =>
        (NO_DATA_PACK, Some(Malformed(PossiblyIncorrectSettings, p.linesToSkip, fileName, line)))
      case Ok(h) =>
        var s := SingleRead(lines, p.delimiter, p.decimalSeparator, p.xColumn, p.yColumn, high,
                            emptyLines, h.linesRead, fileName, readValue);
        (DataPack(s.0, h.xType, [h.yType], true), s.1)
  }

  /** The lines of the stream after the blank ones that lead it, and how many of those there were. */
  method ReadLines(input: seq<string>) returns (lines: seq<string>, emptyLines: nat)
    ensures emptyLines == LeadingBlanks(input) && lines == input[emptyLines..]
  {
    lines := [];
    emptyLines := 0;
    var at := 0;
    while at < |input|
      invariant at <= |input| && lines == [] && emptyLines == at
      invariant forall k :: 0 <= k < at ==> IsBlank(input[k])
    {
      var line := input[at];
      at := at + 1;
      if !IsBlank(line) {
        lines := [line];
        break;
      }
      emptyLines := emptyLines + 1;
    }
    LeadingBlanksMeaning(input, emptyLines);
    while at < |input|
      invariant emptyLines <= at <= |input| && lines == input[emptyLines..at]
    {
      lines := lines + [input[at]];
      at := at + 1;
    }
    assert lines == input[emptyLines..];
  }

  /** `readStream`, line by line over what the stream yields. */
  method ReadStream(input: seq<string>, p: Parameters, fileName: string, readValue: string -> Option<real>)
    returns (pack: DataPack, notice: Option<Notice>)
    requires p.linesToSkip >= 0
    requires !p.multipleYcols ==> p.xColumn >= 1 && p.yColumn >= 1
    ensures (pack, notice) == StreamRead(input, p, fileName, readValue)
  {
    var lines, emptyLines := ReadLines(input);
    if |lines| < 1 {
      return NO_DATA_PACK, Some(NoData);
    }
    if |lines| < p.linesToSkip + 1 {
      return NO_DATA_PACK, Some(TooFewLines);
    }
    var linesRead := p.linesToSkip;
    if p.multipleYcols {
      match ReadHeaderMulti(lines, p.delimiter, p.hasHeader, linesRead) {
        case Err(line) =>
          return NO_DATA_PACK, Some(Malformed(PossiblyIncorrectSettings, linesRead, fileName, line));
        case Ok(h) =>
          var series;
          series, notice := ReadStreamMulti(lines, p.delimiter, p.decimalSeparator, h.columns, emptyLines,
                                            h.linesRead, fileName, readValue);
          pack := DataPack(series, h.xType, h.yTypes, true);
      }
    } else {
      var high := HighColumn(p.xColumn, p.yColumn);
      match ReadHeaderSingle(lines, p.delimiter, p.xColumn, p.yColumn, p.hasHeader, high, linesRead) {
        case Err(line) =>
          return NO_DATA_PACK, Some(Malformed(PossiblyIncorrectSettings, linesRead, fileName, line));
        case Ok(h) =>
          var series;
          series, notice := ReadStreamSingle(lines, p.delimiter, p.decimalSeparator, p.xColumn, p.yColumn, high,
                                             emptyLines, h.linesRead, fileName, readValue);
          pack := DataPack(series, h.xType, [h.yType], true);
      }
    }
  }

  /**
   * The warnings of a read: no data exactly when every line is blank, and an
   * invalid, empty pack exactly for the stream-level and header warnings; a
   * refused data line keeps the pack valid.
   */
  lemma {:induction false} StreamReadNotices(input: seq<string>, p: Parameters, fileName: string,
                                             readValue: string -> Option<real>)
    requires p.linesToSkip >= 0
    requires !p.multipleYcols ==> p.xColumn >= 1 && p.yColumn >= 1
    ensures var (pack, notice) := StreamRead(input, p, fileName, readValue);
      (notice == Some(NoData) <==> forall k :: 0 <= k < |input| ==> IsBlank(input[k]))
      && (!pack.valid <==> notice.Some? && (notice.value.NoData? || notice.value.TooFewLines?
                                             || notice.value.kind == PossiblyIncorrectSettings))
      && (!pack.valid ==> pack == NO_DATA_PACK)
  {
    var emptyLines := LeadingBlanks(input);
    var lines := input[emptyLines..];
    LeadingBlanksMeaning(input, |input|);
    LeadingBlanksMeaning(input, emptyLines);
    if |lines| >= 1 {
      assert !IsBlank(input[emptyLines]);
    }
    if |lines| >= p.linesToSkip + 1 {
      StreamReadRows(input, p, fileName, readValue);
    }
  }

  /**
   * What the data part of a read gives: series of equal length, one for a
   * single y column and one per y column otherwise, labelled by the header
   * when there is one, and a refused data line reported under its 1-based
   * number in the stream.
   */
  predicate RowsRead(input: seq<string>, p: Parameters, pack: DataPack, notice: Option<Notice>)
  {
    pack.valid ==>
      |pack.dataVec| >= 1
      && (forall j :: 0 <= j < |pack.dataVec| ==> |pack.dataVec[j]| == |pack.dataVec[0]|)
      && (!p.multipleYcols ==> |pack.dataVec| == 1 && |pack.yTypes| == 1)
      && (p.multipleYcols && p.hasHeader ==> |pack.yTypes| == |pack.dataVec|)
      && (p.multipleYcols && !p.hasHeader ==> pack.yTypes == [])
      && (notice.Some? ==>
            notice.value.Malformed? && notice.value.kind != PossiblyIncorrectSettings
            && 1 <= notice.value.lineNo <= |input| && input[notice.value.lineNo - 1] == notice.value.badLine)
  }

  lemma {:induction false} StreamReadRows(input: seq<string>, p: Parameters, fileName: string,
                                          readValue: string -> Option<real>)
    requires p.linesToSkip >= 0
    requires !p.multipleYcols ==> p.xColumn >= 1 && p.yColumn >= 1
    ensures var (pack, notice) := StreamRead(input, p, fileName, readValue); RowsRead(input, p, pack, notice)
  {
    if p.multipleYcols {
      StreamReadMultiRows(input, p, fileName, readValue);
    } else {
      StreamReadSingleRows(input, p, fileName, readValue);
    }
  }

  lemma {:induction false} StreamReadMultiRows(input: seq<string>, p: Parameters, fileName: string,
                                               readValue: string -> Option<real>)
    requires p.linesToSkip >= 0 && p.multipleYcols
    ensures var (pack, notice) := StreamRead(input, p, fileName, readValue); RowsRead(input, p, pack, notice)
  {
    var emptyLines := LeadingBlanks(input);
    var lines := input[emptyLines..];
    if 1 <= |lines| && p.linesToSkip + 1 <= |lines| {
      var h := ReadHeaderMulti(lines, p.delimiter, p.hasHeader, p.linesToSkip);
      if h.Ok? {
        HeaderMultiMeaning(lines, p.delimiter, p.hasHeader, p.linesToSkip);
        MultiReadPoints(lines, p.delimiter, p.decimalSeparator, h.value.columns, emptyLines,
                        h.value.linesRead, fileName, readValue);
        var m := MultiRead(lines, p.delimiter, p.decimalSeparator, h.value.columns, emptyLines,
                           h.value.linesRead, fileName, readValue);
        if m.1.Some? {
          assert lines[h.value.linesRead + |m.0[0]|] == input[emptyLines + h.value.linesRead + |m.0[0]|];
        }
      }
    }
  }

  lemma {:induction false} StreamReadSingleRows(input: seq<string>, p: Parameters, fileName: string,
                                                readValue: string -> Option<real>)
    requires p.linesToSkip >= 0 && !p.multipleYcols && p.xColumn >= 1 && p.yColumn >= 1
    ensures var (pack, notice) := StreamRead(input, p, fileName, readValue); RowsRead(input, p, pack, notice)
  {
    var emptyLines := LeadingBlanks(input);
    var lines := input[emptyLines..];
    if 1 <= |lines| && p.linesToSkip + 1 <= |lines| {
      var high := HighColumn(p.xColumn, p.yColumn);
      var h := ReadHeaderSingle(lines, p.delimiter, p.xColumn, p.yColumn, p.hasHeader, high, p.linesToSkip);
      if h.Ok? {
        SingleReadPoints(lines, p.delimiter, p.decimalSeparator, p.xColumn, p.yColumn, high,
                         emptyLines, h.value.linesRead, fileName, readValue);
        var s := SingleRead(lines, p.delimiter, p.decimalSeparator, p.xColumn, p.yColumn, high,
                            emptyLines, h.value.linesRead, fileName, readValue);
        if s.1.Some? {
          assert lines[h.value.linesRead + |s.0[0]|] == input[emptyLines + h.value.linesRead + |s.0[0]|];
        }
      }
    }
  }

  // ------------------------------------------------------------ sources

  /** `readClipboard`: the clipboard's text read as a stream named after the clipboard. */
  method ReadClipboard(text: seq<string>, p: Parameters, readValue: string -> Option<real>)
    returns (pack: DataPack, notice: Option<Notice>)
    requires p.linesToSkip >= 0
    requires !p.multipleYcols ==> p.xColumn >= 1 && p.yColumn >= 1
    ensures (pack, notice) == StreamRead(text, p, CLIPBOARD_NAME, readValue)
  {
    pack, notice := ReadStream(text, p, CLIPBOARD_NAME, readValue);
  }

  /**
   * `readFile`: a missing or unreadable file, or a file that fails the mark
   * check against `encodings`, gives a warning and nothing; otherwise the
   * bytes after the mark are decoded (by `decode`) and read as a stream
   * named after the file. The source checks against `ENCODINGS_AS_WRITTEN`;
   * `CORRECTED_ENCODINGS` is the table with the true big-endian marks.
   */
  method ReadFile(encodings: map<string, Encoding>, path: string, present: bool, readable: bool,
                  file: seq<byte>, p: Parameters,
                  decode: seq<byte> -> seq<string>, readValue: string -> Option<real>)
    returns (pack: DataPack, notice: Option<Notice>)
    requires p.linesToSkip >= 0
    requires !p.multipleYcols ==> p.xColumn >= 1 && p.yColumn >= 1
    ensures !present ==> (pack, notice) == (NO_DATA_PACK, Some(NoSuchFile))
    ensures present && !readable ==> (pack, notice) == (NO_DATA_PACK, Some(CannotOpen))
    ensures present && readable ==>
      match CheckBom(encodings, p, file)
      case Err(n) => (pack, notice) == (NO_DATA_PACK, Some(n))
      case Ok(rest) => (pack, notice) == StreamRead(decode(rest), p, path, readValue)
  {
    if !present {
      return NO_DATA_PACK, Some(NoSuchFile);
    }
    if !readable {
      return NO_DATA_PACK, Some(CannotOpen);
    }
    match CheckBom(encodings, p, file) {
      case Err(n) =>
        return NO_DATA_PACK, Some(n);
      case Ok(rest) =>
        pack, notice := ReadStream(decode(rest), p, path, readValue);
    }
  }
}
