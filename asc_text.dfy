/**
 * How the ASC (EZChrom text export) loader cuts its input: a file into
 * lines, the lines into a header and the data traces, a header entry into a
 * key and a value, and a value into its pieces.
 */
module AscText {
  import opened Wrappers
  import opened Strings

  /** The character that ends a header key. */
  const KV_DELIM: char := ':'

  /**
   * What goes wrong while reading an ASC file: an `ASCFormatException`,
   * which the loader reports, or a standard library exception
   * (`std::runtime_error`, `std::out_of_range`, `std::length_error`), which
   * it does not catch.
   */
  datatype Failure = AscFormat(message: string) | Std(message: string)

  // ------------------------------------------------------------ key and value

  /**
   * `splitKeyValue`: the text before the first occurrence of `delim`,
   * lower-cased, and the text after it; no occurrence is a runtime error.
   */
  function SplitKeyValue(entry: string, delim: string): (r: Result<(string, string), Failure>)
  {
    match Find(entry, delim)
    case None => Err(Std("KeyValue entry contains no delimiter"))
    case Some(i) =>
      var key := LowerString(entry[..i]);
      if |entry| <= i + |delim| then Ok((key, "")) else Ok((key, entry[i + |delim|..]))
  }

  /**
   * An entry splits exactly when it holds the delimiter. It is then the
   * original key, the delimiter and the value, the delimiter occurs nowhere
   * earlier, and the key is that text lower-cased.
   */
  lemma SplitKeyValueMeaning(entry: string, delim: string)
    ensures SplitKeyValue(entry, delim).Err? <==> forall j :: !OccursAt(entry, delim, j)
    ensures SplitKeyValue(entry, delim).Ok? ==>
      var (key, value) := SplitKeyValue(entry, delim).value;
      var p := |entry| - |value| - |delim|;
      0 <= p && entry == entry[..p] + delim + value
      && key == LowerString(entry[..p])
      && (forall j :: 0 <= j < p ==> !OccursAt(entry, delim, j))
  {
    match Find(entry, delim)
    case None =>
    case Some(i) =>
      var value := SplitKeyValue(entry, delim).value.1;
      assert |entry| - |value| - |delim| == i;
      assert entry[i..i + |delim|] == delim;
      assert entry == entry[..i] + entry[i..i + |delim|] + entry[i + |delim|..];
  }

  // ------------------------------------------------------------ decimal splitting

  predicate Digits(s: string)
  {
    |s| >= 1 && forall k :: 0 <= k < |s| ==> IsDigit(s[k])
  }

  predicate SignedDigits(s: string)
  {
    Digits(s) || (|s| >= 2 && (s[0] == '+' || s[0] == '-') && Digits(s[1..]))
  }

  /** The whole text matches `[-+]?[0-9]+[eE][-+]?[0-9]+`. */
  predicate SciNotation(s: string)
  {
    exists i :: 0 <= i < |s| && (s[i] == 'e' || s[i] == 'E') && SignedDigits(s[..i]) && SignedDigits(s[i + 1..])
  }

  /** At most one `d` in `s`. */
  predicate AtMostOne(s: string, d: char)
  {
    forall i, j :: 0 <= i < j < |s| && s[i] == d ==> s[j] != d
  }

  /** A text with a single delimiter at `i` has two pieces, around it. */
  lemma OneDelimiter(s: string, d: char, i: nat)
    requires i < |s| && s[i] == d && Lacks(s[..i], d)
    requires forall k :: i < k < |s| ==> s[k] != d
    ensures Pieces(s, d) == [s[..i], s[i + 1..]]
  {
    PiecesAt(s, d, i);
    PiecesNone(s[i + 1..], d);
  }

  /** One step of the search: the text up to the second delimiter, the text after it, and whether there was one. */
  datatype Segment = Segment(seg: string, rest: string, cont: bool)

  /**
   * The segment `splitDecimal` takes next: up to the second delimiter when
   * there are two, else the whole text (the rest is then the whole text
   * again, as the search index wraps around). The segment has at most one
   * delimiter, so it splits into one or two pieces.
   */
  function Extract(s: string, d: char): (r: Segment)
    ensures r.cont ==> s == r.seg + [d] + r.rest && |Pieces(r.seg, d)| == 2
    ensures !r.cont ==> r.seg == s && r.rest == s && 1 <= |Pieces(s, d)| <= 2
  {
    match FindCharFrom(s, d, 0)
    case None =>
      PiecesNone(s, d);
      Segment(s, s, false)
    case Some(i) =>
      assert Lacks(s[..i], d);
      match FindCharFrom(s, d, i + 1)
      case None =>
        OneDelimiter(s, d, i);
        Segment(s, s, false)
      case Some(j) =>
        assert Lacks(s[..j][..i], d);
        OneDelimiter(s[..j], d, i);
        assert s == s[..j] + [d] + s[j + 1..];
        Segment(s[..j], s[j + 1..], true)
  }

  /**
   * One pass of the loop of `splitDecimal` when the delimiter is also the
   * decimal point: the segments it emits and the text it continues with.
   * Two delimiter-separated pieces make one decimal number, unless the
   * first is in scientific notation: it then stands alone and the search
   * resumes after it.
   */
  function DecimalStep(s: string, d: char): (r: (seq<string>, Option<string>))
    ensures |r.0| >= 1
    ensures r.1.Some? ==> |r.1.value| < |s|
  {
    var x := Extract(s, d);
    var sep := Pieces(x.seg, d);
    if x.cont then
      PiecesSplitTwo(x.seg, d);
      StepOf(x, sep, SciNotation(sep[0]), d)
    else StepOf(x, sep, SciNotation(sep[0]), d)
  }

  /** What one pass emits for the segment `x`, split into `sep`, by whether `sep[0]` is in scientific notation. */
  function StepOf(x: Segment, sep: seq<string>, sci: bool, d: char): (r: (seq<string>, Option<string>))
    requires 1 <= |sep| && (x.cont ==> |sep| == 2)
  {
    if sci then
      if !x.cont then (if |sep| == 2 then [sep[0], sep[1]] else [sep[0]], None)
      else ([sep[0]], Some(sep[1] + [d] + x.rest))
    else if !x.cont then ([x.seg], None)
    else ([x.seg], Some(x.rest))
  }

  /** Whatever `sci` says, the emitted segments, a delimiter and the continuation make up the text. */
  lemma StepOfJoin(s: string, d: char, x: Segment, sep: seq<string>, sci: bool)
    requires 1 <= |sep| <= 2 && Join(sep, d) == x.seg
    requires x.cont ==> |sep| == 2 && s == x.seg + [d] + x.rest
    requires !x.cont ==> x.seg == s
    ensures var r := StepOf(x, sep, sci, d);
      Join(r.0, d) + (if r.1.Some? then [d] + r.1.value else []) == s
  {
    if |sep| == 2 {
      assert sep[1..] == [sep[1]];
      assert x.seg == sep[0] + [d] + sep[1];
      assert Join([sep[0], sep[1]], d) == sep[0] + [d] + Join([sep[1]], d);
    } else {
      assert sep == [sep[0]];
    }
  }

  /** A text of two pieces is the first, the delimiter and the second. */
  lemma PiecesSplitTwo(s: string, d: char)
    requires |Pieces(s, d)| == 2
    ensures s == Pieces(s, d)[0] + [d] + Pieces(s, d)[1]
  {
    var sep := Pieces(s, d);
    JoinPieces(s, d);
    assert Join(sep, d) == sep[0] + [d] + Join(sep[1..], d);
  }

  /** One pass loses nothing: its segments, the delimiter and the text it continues with make up the text. */
  lemma DecimalStepJoin(s: string, d: char)
    ensures var r := DecimalStep(s, d);
      |r.0| >= 1 && Join(r.0, d) + (if r.1.Some? then [d] + r.1.value else []) == s
  {
    var x := Extract(s, d);
    var sep := Pieces(x.seg, d);
    JoinPieces(x.seg, d);
    StepOfJoin(s, d, x, sep, SciNotation(sep[0]));
  }

  /** The segments `splitDecimal` produces when the delimiter is also the decimal point. */
  function DecimalSegments(s: string, d: char): (r: seq<string>)
    decreases |s|
    ensures |r| >= 1
  {
    var st := DecimalStep(s, d);
    st.0 + (if st.1.None? then [] else DecimalSegments(st.1.value, d))
  }

  /** The pieces `splitDecimal` returns: never none. */
  function DecimalPieces(s: string, delim: char, decPoint: char): (r: seq<string>)
    ensures |r| >= 1
  {
    if delim != decPoint then Pieces(s, delim) else DecimalSegments(s, delim)
  }

  /** The source's `extractSegment`: search for the delimiter at most twice. */
  method ExtractSegment(s: string, d: char) returns (seg: string, rest: string, cont: bool)
    ensures Segment(seg, rest, cont) == Extract(s, d)
  {
    var idx: Option<nat> := None;
    var cnt := 0;
    while cnt < 2
      invariant 0 <= cnt <= 2
      invariant cnt == 0 ==> idx.None?
      invariant cnt >= 1 ==> FindCharFrom(s, d, 0).Some?
      invariant cnt == 1 ==> idx == FindCharFrom(s, d, 0)
      invariant cnt == 2 ==> idx == FindCharFrom(s, d, FindCharFrom(s, d, 0).value + 1) && idx.Some?
      decreases 2 - cnt
    {
      var from := if idx.None? then 0 else idx.value + 1;
      var found := FindCharFrom(s, d, from);
      if found.None? {
        idx := None;
        break;
      }
      idx := found;
      cnt := cnt + 1;
    }
    match idx {
      case None =>
        seg := s;
        rest := s;
      case Some(i) =>
        seg := s[..i];
        rest := s[i + 1..];
    }
    cont := cnt == 2;
  }

  /**
   * One turn of the loop of `splitDecimal`: the segments it emits and the
   * text the search goes on with, if any.
   */
  method DecimalTurn(rest: string, delim: char) returns (emitted: seq<string>, next: Option<string>)
    ensures (emitted, next) == DecimalStep(rest, delim)
  {
    var seg, after, cont := ExtractSegment(rest, delim);
    var sep := Split(seg, delim);
    assert Extract(rest, delim) == Segment(seg, after, cont) && sep == Pieces(seg, delim);
    if |sep| > 2 {
      // the source throws std::logic_error here; a segment never holds two delimiters
      assert false;
    }
    if SciNotation(sep[0]) {
      if !cont {
        emitted := if |sep| == 2 then [sep[0], sep[1]] else [sep[0]];
        next := None;
      } else {
        emitted := [sep[0]];
        next := Some(sep[1] + [delim] + after);
      }
    } else {
      emitted := [seg];
      next := if cont then Some(after) else None;
    }
  }

  /**
   * `splitDecimal`: plain splitting unless the delimiter is also the decimal
   * point, in which case pieces are paired into decimal numbers.
   */
  method SplitDecimal(s: string, delim: char, decPoint: char) returns (segments: seq<string>)
    ensures delim != decPoint ==> segments == Pieces(s, delim)
    ensures delim == decPoint ==> segments == DecimalSegments(s, delim)
    ensures segments == DecimalPieces(s, delim, decPoint)
  {
    if delim != decPoint {
      segments := Split(s, delim);
      return;
    }
    segments := [];
    var rest := s;
    while true
      invariant segments + DecimalSegments(rest, delim) == DecimalSegments(s, delim)
      decreases |rest|
    {
      var emitted, next := DecimalTurn(rest, delim);
      match next {
        case None =>
          assert DecimalSegments(rest, delim) == emitted + [];
          segments := segments + emitted;
          return;
        case Some(after) =>
          Assoc3(segments, emitted, DecimalSegments(after, delim));
          segments, rest := segments + emitted, after;
      }
    }
  }

  /** Joining the segments with the delimiter gives back the text: nothing is lost or added. */
  lemma {:induction false} JoinDecimalSegments(s: string, d: char)
    decreases |s|
    ensures Join(DecimalSegments(s, d), d) == s
  {
    var st := DecimalStep(s, d);
    DecimalStepJoin(s, d);
    if st.1.Some? {
      JoinDecimalSegments(st.1.value, d);
      JoinAppend(st.0, DecimalSegments(st.1.value, d), d);
    } else {
      assert DecimalSegments(s, d) == st.0;
    }
  }

  /** Joining two non-empty lists is joining each, with one delimiter between. */
  lemma {:induction false} JoinAppend(a: seq<string>, b: seq<string>, d: char)
    requires |a| >= 1
    ensures |b| >= 1 ==> Join(a + b, d) == Join(a, d) + [d] + Join(b, d)
    ensures |b| == 0 ==> Join(a + b, d) == Join(a, d)
  {
    if |b| == 0 {
      assert a + b == a;
    } else if |a| == 1 {
      assert (a + b)[1..] == b;
    } else {
      JoinAppend(a[1..], b, d);
      assert (a + b)[1..] == a[1..] + b;
    }
  }

  /** Every segment holds at most one delimiter: the decimal point of a number. */
  lemma {:induction false} DecimalSegmentsShape(s: string, d: char)
    decreases |s|
    ensures forall k :: 0 <= k < |DecimalSegments(s, d)| ==> AtMostOne(DecimalSegments(s, d)[k], d)
  {
    var st := DecimalStep(s, d);
    var x := Extract(s, d);
    var sep := Pieces(x.seg, d);
    PiecesShape(x.seg, d);
    assert Lacks(sep[0], d);
    JoinPieces(x.seg, d);
    if |sep| == 2 {
      assert Lacks(sep[1], d);
      assert Join(sep, d) == sep[0] + [d] + Join(sep[1..], d);
      SingleDelimiter(sep[0], sep[1], d);
      NoDelimiter(sep[1], d);
    } else {
      assert x.seg == sep[0];
    }
    NoDelimiter(sep[0], d);
    assert forall k :: 0 <= k < |st.0| ==> AtMostOne(st.0[k], d);
    if st.1.Some? {
      DecimalSegmentsShape(st.1.value, d);
    }
  }

  lemma NoDelimiter(a: string, d: char)
    requires Lacks(a, d)
    ensures AtMostOne(a, d)
  {
  }

  lemma SingleDelimiter(a: string, b: string, d: char)
    requires Lacks(a, d) && Lacks(b, d)
    ensures AtMostOne(a + [d] + b, d)
  {
    var s := a + [d] + b;
    forall i, j | 0 <= i < j < |s| && s[i] == d ensures s[j] != d {
      assert i == |a|;
      assert s[j] == b[j - |a| - 1];
    }
  }

  // ------------------------------------------------------------ lines

  /**
   * The text stream the file is read from (`std::istringstream`): the text,
   * the read position and the end-of-file flag, which a `peek` at the end
   * sets.
   */
  class InStream {
    var text: string
    var pos: nat
    var eof: bool

    ghost predicate Valid()
      reads this
    {
      pos <= |text|
    }

    constructor (t: string)
      ensures text == t && pos == 0 && !eof && Valid()
    {
      text := t;
      pos := 0;
      eof := false;
    }

    /** The next character without taking it; at the end, none, and the flag is set. */
    method Peek() returns (c: Option<char>)
      requires Valid()
      modifies this
      ensures Valid() && text == old(text) && pos == old(pos)
      ensures pos < |text| ==> c == Some(text[pos]) && eof == old(eof)
      ensures pos == |text| ==> c.None? && eof
    {
      if pos == |text| {
        eof := true;
        c := None;
      } else {
        c := Some(text[pos]);
      }
    }

    /** Take the next character. */
    method Get() returns (c: char)
      requires Valid() && pos < |text|
      modifies this
      ensures Valid() && text == old(text) && pos == old(pos) + 1 && eof == old(eof)
      ensures c == text[old(pos)]
    {
      c := text[pos];
      pos := pos + 1;
    }
  }

  predicate IsBreak(c: char) { c == '\r' || c == '\n' }

  /** A line read from `pos`: its text, where reading continues, and whether the end was met. */
  datatype LineRead = LineRead(line: string, next: nat, atEnd: bool)

  /**
   * The line `readLine` returns from `pos`: the characters up to a line
   * break, which is taken with it (CR LF, CR or LF), or up to the end of the
   * text. A `peek` meets the end when the line runs into it or a CR is the
   * last character.
   */
  function LineAt(text: string, pos: nat): (r: LineRead)
    requires pos <= |text|
    decreases |text| - pos
    ensures pos + |r.line| <= r.next <= |text|
    ensures r.atEnd || pos < r.next
  {
    if pos == |text| then LineRead("", pos, true)
    else if text[pos] == '\r' then
      if pos + 1 < |text| && text[pos + 1] == '\n' then LineRead("", pos + 2, false)
      else LineRead("", pos + 1, pos + 1 == |text|)
    else if text[pos] == '\n' then LineRead("", pos + 1, false)
    else
      var r := LineAt(text, pos + 1);
      r.(line := [text[pos]] + r.line)
  }

  /**
   * A line is the text from `pos` up to its end, holds no line break, and
   * ends at the end of the text, or at a break that reading skips: two
   * characters for CR LF, one for CR or LF.
   */
  lemma {:induction false} LineAtShape(text: string, pos: nat)
    requires pos <= |text|
    decreases |text| - pos
    ensures var r := LineAt(text, pos); var e := pos + |r.line|;
      text[pos..e] == r.line
      && (forall k :: 0 <= k < |r.line| ==> !IsBreak(r.line[k]))
      && (e == |text| ==> r.next == e && r.atEnd)
      && (e < |text| ==> IsBreak(text[e]))
      && (e < |text| && text[e] == '\n' ==> r.next == e + 1 && !r.atEnd)
      && (e + 1 < |text| && text[e] == '\r' && text[e + 1] == '\n' ==> r.next == e + 2 && !r.atEnd)
      && (e < |text| && text[e] == '\r' && (e + 1 == |text| || text[e + 1] != '\n') ==>
            r.next == e + 1 && r.atEnd == (e + 1 == |text|))
  {
    if pos < |text| && !IsBreak(text[pos]) {
      LineAtShape(text, pos + 1);
      var r := LineAt(text, pos + 1);
      var line := [text[pos]] + r.line;
      assert LineAt(text, pos) == r.(line := line);
      SliceCons(text, pos, pos + 1 + |r.line|);
      forall k | 0 <= k < |line| ensures !IsBreak(line[k]) {
        if k > 0 {
          assert line[k] == r.line[k - 1];
        }
      }
      assert pos + |line| == pos + 1 + |r.line|;
    } else if pos == |text| {
      assert LineAt(text, pos) == LineRead("", pos, true);
    } else {
      assert LineAt(text, pos).line == [];
    }
  }

  /** A non-empty slice is its first character followed by the rest. */
  lemma SliceCons(t: string, i: nat, j: nat)
    requires i < j <= |t|
    ensures t[i..j] == [t[i]] + t[i + 1..j]
  {
    assert t[i..j][1..] == t[i + 1..j];
  }

  lemma {:induction false} LineAtAfter(text: string, p0: nat, p: nat)
    requires p0 <= p <= |text|
    requires forall k :: p0 <= k < p ==> !IsBreak(text[k])
    decreases p - p0
    ensures LineAt(text, p0) == LineAt(text, p).(line := text[p0..p] + LineAt(text, p).line)
  {
    if p0 < p {
      LineAtAfter(text, p0 + 1, p);
      assert text[p0..p] == [text[p0]] + text[p0 + 1..p];
    }
  }

  /** The lambda of `readLine`: at a line break or the end, take the break and say so. */
  method EndOfLine(stream: InStream) returns (end: bool)
    requires stream.Valid()
    modifies stream
    ensures stream.Valid() && stream.text == old(stream.text)
    ensures var p := old(stream.pos); var t := stream.text;
      (end <==> (p == |t| || IsBreak(t[p])))
      && (!end ==> stream.pos == p && stream.eof == old(stream.eof))
      && (end ==> LineAt(t, p).line == [] && stream.pos == LineAt(t, p).next
                  && stream.eof == (old(stream.eof) || LineAt(t, p).atEnd))
  {
    var c := stream.Peek();
    if c.None? {
      return true;
    }
    if c.value == '\r' {
      var _ := stream.Get();
      c := stream.Peek();
      if c == Some('\n') {
        var _ := stream.Get();
        return true;
      }
      return true;
    } else if c.value == '\n' {
      var _ := stream.Get();
      return true;
    }
    return false;
  }

  /** No line break among the characters of `t` from `a` up to `b`. */
  predicate NoBreakIn(t: string, a: nat, b: nat)
    requires a <= b <= |t|
  {
    forall k :: a <= k < b ==> !IsBreak(t[k])
  }

  /**
   * One turn of the `readLine` loop, the line read from `p0` so far being
   * `line` and the next character no break: take that character, then ask
   * whether the line ends there.
   */
  method ReadLineTurn(stream: InStream, ghost p0: nat, line: string) returns (longer: string, end: bool)
    requires stream.Valid() && p0 + |line| == stream.pos < |stream.text|
    requires line == stream.text[p0..stream.pos] && NoBreakIn(stream.text, p0, stream.pos + 1)
    modifies stream
    ensures stream.Valid() && stream.text == old(stream.text) && stream.pos > old(stream.pos)
    ensures !end ==> (p0 + |longer| == stream.pos < |stream.text| && longer == stream.text[p0..stream.pos]
      && NoBreakIn(stream.text, p0, stream.pos + 1) && stream.eof == old(stream.eof))
    ensures end ==> var r := LineAt(stream.text, p0);
      longer == r.line && stream.pos == r.next && stream.eof == (old(stream.eof) || r.atEnd)
  {
    var p := stream.pos;
    var c := stream.Get();
    longer := line + [c];
    assert longer == stream.text[p0..p + 1];
    end := EndOfLine(stream);
    if end {
      LineAtAfter(stream.text, p0, p + 1);
    }
  }

  /** `readLine`: the next line, read character by character. */
  method ReadLine(stream: InStream) returns (line: string)
    requires stream.Valid()
    modifies stream
    ensures stream.Valid() && stream.text == old(stream.text)
    ensures var r := LineAt(stream.text, old(stream.pos));
      line == r.line && stream.pos == r.next && stream.eof == (old(stream.eof) || r.atEnd)
  {
    ghost var p0 := stream.pos;
    line := [];
    var end := EndOfLine(stream);
    while !end
      invariant stream.Valid() && stream.text == old(stream.text)
      invariant !end ==> (p0 + |line| == stream.pos < |stream.text| && line == stream.text[p0..stream.pos]
        && NoBreakIn(stream.text, p0, stream.pos + 1) && stream.eof == old(stream.eof))
      invariant end ==> var r := LineAt(stream.text, p0);
        line == r.line && stream.pos == r.next && stream.eof == (old(stream.eof) || r.atEnd)
      decreases |stream.text| - stream.pos
    {
      line, end := ReadLineTurn(stream, p0, line);
    }
  }

  /** The non-empty lines read from `pos` on, until a read meets the end. */
  function LinesFrom(text: string, pos: nat): seq<string>
    requires pos <= |text|
    decreases |text| - pos
  {
    var r := LineAt(text, pos);
    (if |r.line| > 0 then [r.line] else []) + (if r.atEnd then [] else LinesFrom(text, r.next))
  }

  /**
   * The reading loop of `loadInternal`: read lines while the stream is good
   * and keep the non-empty ones.
   */
  method ReadLines(stream: InStream) returns (lines: seq<string>)
    requires stream.Valid() && !stream.eof
    modifies stream
    ensures lines == LinesFrom(old(stream.text), old(stream.pos))
    ensures stream.eof
  {
    ghost var t := stream.text;
    ghost var p0 := stream.pos;
    lines := [];
    while !stream.eof
      invariant stream.Valid() && stream.text == t
      invariant !stream.eof ==> LinesFrom(t, p0) == lines + LinesFrom(t, stream.pos)
      invariant stream.eof ==> lines == LinesFrom(t, p0)
      decreases |t| - stream.pos, if stream.eof then 0 else 1
    {
      ghost var before := lines;
      ghost var p := stream.pos;
      ghost var r := LineAt(t, p);
      ghost var kept := if |r.line| > 0 then [r.line] else [];
      LinesFromStep(t, p);
      var line := ReadLine(stream);
      assert line == r.line && stream.pos == r.next && stream.eof == r.atEnd;
      if |line| > 0 {
        lines := lines + [line];
      }
      assert lines == before + kept;
      if !r.atEnd {
        Assoc3(before, kept, LinesFrom(t, r.next));
      }
    }
  }

  lemma LinesFromStep(t: string, p: nat)
    requires p <= |t|
    ensures var r := LineAt(t, p);
      LinesFrom(t, p) == (if |r.line| > 0 then [r.line] else []) + (if r.atEnd then [] else LinesFrom(t, r.next))
  {
  }

  /** Every line kept is non-empty and holds no line break. */
  lemma {:induction false} LinesFromShape(text: string, pos: nat)
    requires pos <= |text|
    decreases |text| - pos
    ensures forall k :: 0 <= k < |LinesFrom(text, pos)| ==>
      |LinesFrom(text, pos)[k]| > 0 && forall j :: 0 <= j < |LinesFrom(text, pos)[k]| ==> !IsBreak(LinesFrom(text, pos)[k][j])
  {
    var r := LineAt(text, pos);
    LineAtShape(text, pos);
    if !r.atEnd {
      LinesFromShape(text, r.next);
    }
  }

  /**
   * `spliceHeaderTraces`: the header is the longest run of leading lines
   * that hold a ':' (placed before whatever the header list already held),
   * the traces are the lines after it.
   */
  method SpliceHeaderTraces(lines: seq<string>, header0: seq<string>) returns (header: seq<string>, traces: seq<string>)
    ensures |traces| <= |lines|
    ensures header == lines[..|lines| - |traces|] + header0
    ensures traces == lines[|lines| - |traces|..]
    ensures forall k :: 0 <= k < |lines| - |traces| ==> !Lacks(lines[k], KV_DELIM)
    ensures |traces| > 0 ==> Lacks(traces[0], KV_DELIM)
  {
    var i := 0;
    while i < |lines|
      invariant 0 <= i <= |lines|
      invariant forall k :: 0 <= k < i ==> !Lacks(lines[k], KV_DELIM)
    {
      if FindChar(lines[i], KV_DELIM).None? {
        break;
      }
      i := i + 1;
    }
    header := lines[..i] + header0;
    traces := lines[i..];
  }
}
