/**
 * Text operations the plugins rely on, with the meaning of the standard
 * library calls they use: `find`, splitting at a character, `tolower`,
 * `std::to_string` and `std::stoi`.
 */
module Strings {
  import opened Wrappers

  // ------------------------------------------------------------ searching

  /** `pat` occurs in `s` at index `i`. */
  predicate OccursAt(s: string, pat: string, i: nat)
  {
    i + |pat| <= |s| && s[i..i + |pat|] == pat
  }

  /** The first occurrence of `pat` in `s` at or after `from`, as `find` reports it. */
  function FindFrom(s: string, pat: string, from: nat): (r: Option<nat>)
    decreases |s| - from
    ensures r.Some? ==> from <= r.value && OccursAt(s, pat, r.value)
    ensures r.Some? ==> forall j :: from <= j < r.value ==> !OccursAt(s, pat, j)
    ensures r.None? ==> forall j :: from <= j ==> !OccursAt(s, pat, j)
  {
    if from + |pat| > |s| then None
    else if s[from..from + |pat|] == pat then Some(from)
    else FindFrom(s, pat, from + 1)
  }

  function Find(s: string, pat: string): (r: Option<nat>)
  {
    FindFrom(s, pat, 0)
  }

  /** `c` does not occur in `s`. */
  predicate Lacks(s: string, c: char)
  {
    forall k :: 0 <= k < |s| ==> s[k] != c
  }

  /** The index of the first `c` in `s` at or after `from`, as `find` reports it. */
  function FindCharFrom(s: string, c: char, from: nat): (r: Option<nat>)
    decreases |s| - from
    ensures r.Some? ==> from <= r.value < |s| && s[r.value] == c
    ensures r.Some? ==> forall k :: from <= k < r.value ==> s[k] != c
    ensures r.None? ==> forall k :: from <= k < |s| ==> s[k] != c
  {
    if from >= |s| then None
    else if s[from] == c then Some(from)
    else FindCharFrom(s, c, from + 1)
  }

  /** The index of the first `c` in `s`, as `find` reports it for one character. */
  function FindChar(s: string, c: char): (r: Option<nat>)
    ensures r.Some? ==> r.value < |s| && s[r.value] == c && Lacks(s[..r.value], c)
    ensures r.None? ==> Lacks(s, c)
  {
    if |s| == 0 then None
    else if s[0] == c then Some(0)
    else match FindChar(s[1..], c)
      case None => None
      case Some(i) => assert s[1..][..i] == s[1..i + 1]; Some(i + 1)
  }

  // ------------------------------------------------------------ case

  /** `tolower` in the C locale: only the letters A to Z change. */
  function Lower(c: char): char
  {
    if 'A' <= c <= 'Z' then (c as int + 32) as char else c
  }

  function LowerString(s: string): (r: string)
    ensures |r| == |s|
    ensures forall k :: 0 <= k < |s| ==> r[k] == Lower(s[k])
  {
    if |s| == 0 then [] else [Lower(s[0])] + LowerString(s[1..])
  }

  // ------------------------------------------------------------ splitting

  /** The pieces between the occurrences of `d`: one more than there are occurrences. */
  function Pieces(s: string, d: char): (r: seq<string>)
    ensures |r| >= 1
  {
    if |s| == 0 then [""]
    else
      var rest := Pieces(s[1..], d);
      if s[0] == d then [""] + rest
      else [[s[0]] + rest[0]] + rest[1..]
  }

  /** The pieces laid end to end with `d` between them. */
  function Join(ps: seq<string>, d: char): string
  {
    if |ps| == 0 then ""
    else if |ps| == 1 then ps[0]
    else ps[0] + [d] + Join(ps[1..], d)
  }

  function Count(s: string, c: char): nat
  {
    if |s| == 0 then 0 else (if s[0] == c then 1 else 0) + Count(s[1..], c)
  }

  /** Joining the pieces with the delimiter gives back the text. */
  lemma {:induction false} JoinPieces(s: string, d: char)
    ensures Join(Pieces(s, d), d) == s
  {
    if |s| > 0 {
      var rest := Pieces(s[1..], d);
      JoinPieces(s[1..], d);
      if s[0] == d {
        assert Join([""] + rest, d) == "" + [d] + Join(rest, d);
        assert s == [s[0]] + s[1..];
      } else {
        var ps := [[s[0]] + rest[0]] + rest[1..];
        if |rest| == 1 {
          assert ps == [[s[0]] + rest[0]];
        } else {
          assert ps[1..] == rest[1..];
          assert Join(rest, d) == rest[0] + [d] + Join(rest[1..], d);
        }
        assert s == [s[0]] + s[1..];
      }
    }
  }

  /** There is one piece more than there are delimiters, and no piece holds one. */
  lemma {:induction false} PiecesShape(s: string, d: char)
    ensures |Pieces(s, d)| == Count(s, d) + 1
    ensures forall k :: 0 <= k < |Pieces(s, d)| ==> Lacks(Pieces(s, d)[k], d)
  {
    if |s| > 0 {
      PiecesShape(s[1..], d);
      var rest := Pieces(s[1..], d);
      if s[0] != d {
        var ps := Pieces(s, d);
        assert ps[0] == [s[0]] + rest[0];
        forall k | 1 <= k < |ps| ensures Lacks(ps[k], d) {
          assert ps[k] == rest[k];
        }
      }
    }
  }

  /** A character is absent exactly when it is counted zero times. */
  lemma {:induction false} CountLacks(s: string, c: char)
    ensures Count(s, c) == 0 <==> Lacks(s, c)
  {
    if |s| > 0 {
      CountLacks(s[1..], c);
      if Lacks(s[1..], c) && s[0] != c {
        forall k | 0 <= k < |s| ensures s[k] != c {
          if k > 0 { assert s[k] == s[1..][k - 1]; }
        }
      }
    }
  }

  /** Splitting at the first delimiter: the piece before it, then the pieces of the rest. */
  lemma {:induction false} PiecesAt(s: string, d: char, i: nat)
    requires i < |s| && s[i] == d && Lacks(s[..i], d)
    ensures Pieces(s, d) == [s[..i]] + Pieces(s[i + 1..], d)
  {
    if i > 0 {
      assert s[1..][..i - 1] == s[1..i];
      assert s[1..][i..] == s[i + 1..];
      PiecesAt(s[1..], d, i - 1);
      assert [s[0]] + s[1..i] == s[..i];
    }
  }

  /** Text without the delimiter is a single piece. */
  lemma {:induction false} PiecesNone(s: string, d: char)
    requires Lacks(s, d)
    ensures Pieces(s, d) == [s]
  {
    if |s| > 0 {
      PiecesNone(s[1..], d);
      assert [s[0]] + s[1..] == s;
    }
  }

  /**
   * `split`: cut the text at each delimiter. The loop takes the text up to
   * the next delimiter as a piece and continues after it, until no
   * delimiter is left, whose piece is the rest of the text.
   */
  /** One turn of the split loop: the piece before the next delimiter, and what follows it if there is one. */
  method SplitTurn(rest: string, d: char) returns (piece: string, next: Option<string>)
    ensures next.Some? ==> |next.value| < |rest| && Pieces(rest, d) == [piece] + Pieces(next.value, d)
    ensures next.None? ==> Pieces(rest, d) == [piece]
  {
    match FindChar(rest, d) {
      case None =>
        PiecesNone(rest, d);
        piece, next := rest, None;
      case Some(i) =>
        PiecesAt(rest, d, i);
        piece, next := rest[..i], Some(rest[i + 1..]);
    }
  }

  method Split(s: string, d: char) returns (pieces: seq<string>)
    ensures pieces == Pieces(s, d)
  {
    pieces := [];
    var rest := s;
    var more := true;
    while more
      invariant more ==> pieces + Pieces(rest, d) == Pieces(s, d)
      invariant !more ==> pieces == Pieces(s, d)
      decreases |rest|, more
    {
      var piece, next := SplitTurn(rest, d);
      if next.Some? {
        assert pieces + Pieces(rest, d) == (pieces + [piece]) + Pieces(next.value, d);
        pieces, rest := pieces + [piece], next.value;
      } else {
        assert pieces + Pieces(rest, d) == pieces + [piece];
        pieces, more := pieces + [piece], false;
      }
    }
  }


  // ------------------------------------------------------------ paths

  /** `QFileInfo::fileName`: what follows the last '/' of a path. */
  function BaseName(path: string): (r: string)
    ensures |r| <= |path| && path[|path| - |r|..] == r && Lacks(r, '/')
    ensures |r| < |path| ==> path[|path| - |r| - 1] == '/'
  {
    if |path| == 0 || path[|path| - 1] == '/' then ""
    else
      var init := path[..|path| - 1];
      var prev := BaseName(init);
      var r := prev + [path[|path| - 1]];
      assert path[|path| - |r|..] == init[|init| - |prev|..] + [path[|path| - 1]];
      assert |r| < |path| ==> path[|path| - |r| - 1] == init[|init| - |prev| - 1];
      assert Lacks(r, '/') by {
        forall k | 0 <= k < |r| ensures r[k] != '/' {
          if k < |prev| { assert r[k] == prev[k]; }
        }
      }
      r
  }

  // ------------------------------------------------------------ converting pieces

  /** Converting pieces in order up to the first that fails: the values before it and its error. */
  function Convert<T, E>(parts: seq<string>, conv: string -> Result<T, E>): (r: (seq<T>, Option<E>))
    ensures |r.0| <= |parts|
  {
    if |parts| == 0 then ([], None)
    else match conv(parts[0])
      case Err(e) => ([], Some(e))
      case Ok(v) =>
        var rest := Convert(parts[1..], conv);
        ([v] + rest.0, rest.1)
  }

  /**
   * One value per piece, in order, up to the first piece that does not
   * convert; its error is the one reported, and without one every piece
   * gave a value.
   */
  lemma {:induction false} ConvertMeaning<T, E>(parts: seq<string>, conv: string -> Result<T, E>)
    ensures var r := Convert(parts, conv);
      (forall k :: 0 <= k < |r.0| ==> conv(parts[k]) == Ok(r.0[k]))
      && (r.1.None? ==> |r.0| == |parts|)
      && (r.1.Some? ==> |r.0| < |parts| && conv(parts[|r.0|]) == Err(r.1.value))
  {
    if |parts| > 0 && conv(parts[0]).Ok? {
      ConvertMeaning(parts[1..], conv);
      var r := Convert(parts, conv);
      var rest := Convert(parts[1..], conv);
      assert r.0 == [conv(parts[0]).value] + rest.0;
      forall k | 1 <= k < |r.0| ensures conv(parts[k]) == Ok(r.0[k]) {
        assert parts[1..][k - 1] == parts[k];
      }
      if r.1.Some? {
        assert parts[1..][|rest.0|] == parts[|r.0|];
      }
    }
  }

  /** A conversion that fails stops at a piece: fewer values than pieces. */
  lemma {:induction false} ConvertStops<T, E>(parts: seq<string>, conv: string -> Result<T, E>)
    ensures Convert(parts, conv).1.Some? ==> |Convert(parts, conv).0| < |parts|
  {
    if |parts| > 0 && conv(parts[0]).Ok? {
      ConvertStops(parts[1..], conv);
    }
  }

  /** The loops of the handlers: append one converted value per piece until one fails. */
  method AppendConverted<T, E>(into: seq<T>, parts: seq<string>, conv: string -> Result<T, E>)
    returns (out: seq<T>, err: Option<E>)
    ensures (out, err) == (into + Convert(parts, conv).0, Convert(parts, conv).1)
  {
    out := into;
    ghost var got: seq<T> := [];
    assert parts[0..] == parts;
    assert [] + Convert(parts, conv).0 == Convert(parts, conv).0;
    for idx := 0 to |parts|
      invariant out == into + got
      invariant var c := Convert(parts[idx..], conv); Convert(parts, conv) == (got + c.0, c.1)
    {
      ghost var tail := Convert(parts[idx + 1..], conv);
      assert parts[idx..][1..] == parts[idx + 1..];
      match conv(parts[idx]) {
        case Err(e) =>
          assert Convert(parts[idx..], conv) == ([], Some(e));
          assert got + [] == got;
          return out, Some(e);
        case Ok(v) =>
          assert Convert(parts[idx..], conv) == ([v] + tail.0, tail.1);
          Assoc3(got, [v], tail.0);
          out := out + [v];
          got := got + [v];
      }
    }
    assert parts[|parts|..] == [];
    assert got + [] == got;
    err := None;
  }

  /** `a + (b + c)` regrouped. */
  lemma Assoc3<T>(a: seq<T>, b: seq<T>, c: seq<T>)
    ensures a + (b + c) == (a + b) + c
  {
  }

  // ------------------------------------------------------------ numbers

  predicate IsDigit(c: char) { '0' <= c <= '9' }

  function DigitChar(n: nat): char
    requires n < 10
  {
    ('0' as int + n) as char
  }

  function DigitOf(c: char): nat
    requires IsDigit(c)
  {
    c as int - '0' as int
  }

  /** The value of a string of decimal digits. */
  function DigitsValue(ds: string): nat
    requires forall k :: 0 <= k < |ds| ==> IsDigit(ds[k])
  {
    if |ds| == 0 then 0
    else DigitsValue(ds[..|ds| - 1]) * 10 + DigitOf(ds[|ds| - 1])
  }

  /** The decimal digits of a natural number, without leading zeros. */
  function NatText(n: nat): (r: string)
    ensures |r| >= 1
    ensures forall k :: 0 <= k < |r| ==> IsDigit(r[k])
  {
    if n < 10 then [DigitChar(n)] else NatText(n / 10) + [DigitChar(n % 10)]
  }

  /** `std::to_string` of an integer. */
  function IntText(n: int): string
  {
    if n < 0 then "-" + NatText(-n) else NatText(n)
  }

  lemma {:induction false} NatTextValue(n: nat)
    ensures DigitsValue(NatText(n)) == n
  {
    if n >= 10 {
      NatTextValue(n / 10);
      var t := NatText(n);
      assert t[..|t| - 1] == NatText(n / 10);
    }
  }

  /** Why a text is not a number: `std::invalid_argument` or `std::out_of_range`. */
  datatype NumError = NotANumber | OutOfRange

  /** The characters `isspace` accepts in the C locale. */
  predicate IsSpace(c: char)
  {
    c == ' ' || c == '\t' || c == '\n' || c == 11 as char || c == 12 as char || c == '\r'
  }

  function DropSpaces(s: string): (r: string)
    ensures |r| <= |s|
  {
    if |s| > 0 && IsSpace(s[0]) then DropSpaces(s[1..]) else s
  }

  /** The longest run of digits at the front of `s`. */
  function DigitPrefix(s: string): (r: string)
    ensures |r| <= |s| && r == s[..|r|]
    ensures forall k :: 0 <= k < |r| ==> IsDigit(r[k])
    ensures |r| < |s| ==> !IsDigit(s[|r|])
  {
    if |s| > 0 && IsDigit(s[0]) then [s[0]] + DigitPrefix(s[1..]) else []
  }

  predicate InInt32(v: int) { -0x8000_0000 <= v < 0x8000_0000 }

  /**
   * `strToInt`: `std::stoi`, which skips leading white space, takes a sign
   * and the digits that follow, fails when there are none or the value does
   * not fit an `int`, and the further demand that the digits end the text.
   */
  function StrToInt(s: string): (r: Result<int, NumError>)
    ensures r.Ok? ==> InInt32(r.value)
  {
    var t := DropSpaces(s);
    var neg := |t| > 0 && t[0] == '-';
    var u := if |t| > 0 && (t[0] == '-' || t[0] == '+') then t[1..] else t;
    var p := DigitPrefix(u);
    var m: int := DigitsValue(p);
    var v := if neg then -m else m;
    if |p| == 0 then Err(NotANumber)
    else if !InInt32(v) then Err(OutOfRange)
    else if |p| < |u| then Err(NotANumber)
    else Ok(v)
  }

  /** Reading back the decimal text of an `int` gives the number. */
  lemma IntTextRoundTrip(n: int)
    requires InInt32(n)
    ensures StrToInt(IntText(n)) == Ok(n)
  {
    var m := if n < 0 then -n else n;
    NatTextValue(m);
    var digits := NatText(m);
    assert DigitPrefix(digits) == digits by {
      DigitPrefixAll(digits);
    }
    var text := IntText(n);
    if n < 0 {
      assert text == "-" + digits;
      assert DropSpaces(text) == text;
      assert text[1..] == digits;
      assert DigitsValue(DigitPrefix(text[1..])) == m;
    } else {
      assert text == digits;
      assert IsDigit(digits[0]) && !IsSpace(digits[0]);
      assert DropSpaces(digits) == digits;
      assert DigitsValue(DigitPrefix(digits)) == m;
    }
  }

  lemma {:induction false} DigitPrefixAll(s: string)
    requires forall k :: 0 <= k < |s| ==> IsDigit(s[k])
    ensures DigitPrefix(s) == s
  {
    if |s| > 0 {
      DigitPrefixAll(s[1..]);
      assert [s[0]] + s[1..] == s;
    }
  }
}
