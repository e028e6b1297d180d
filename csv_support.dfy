/**
 * The CSV plugin: its identifier, the dialog loop that produces loader
 * parameters, the turning of a read table into a loaded signal, and the
 * loads from files and from the clipboard.
 */
module CsvSupport {
  import opened Wrappers
  import opened Strings
  import opened CsvLoader
  import opened CsvUtil
  import Plugin

  const CSV_IDENTIFIER := Plugin.Identifier("Comma separated file format support", "CSV", "CSV", ["file", "clipboard"])

  /** A table read by the loader, as the plugin uses it: its labels, its points and whether it is valid. */
  datatype CsvData = CsvData(xType: string, yType: string, data: seq<(real, real)>, valid: bool)

  // ------------------------------------------------------------ one signal

  /** A unit with its trailing new line, if it has one, removed. */
  function ChopNewline(u: string): string
  {
    if |u| > 0 && u[|u| - 1] == '\n' then u[..|u| - 1] else u
  }

  /** The labels and units of the signal: typed in the dialog, or from the header line. */
  function Labels(csv: CsvData, p: DialogParameters): (string, string, string, string)
  {
    match p.header
    case NoHeader => (p.xType, p.yType, p.xUnit, p.yUnit)
    case HeaderWithUnits => (csv.xType, csv.yType, "", "")
    case HeaderWithoutUnits => (csv.xType, csv.yType, p.xUnit, p.yUnit)
  }

  /** `loadCsvData`: the signal the plugin hands back for one read table. */
  function LoadCsvData(csv: CsvData, file: string, p: DialogParameters): Plugin.Data
  {
    var (xType, yType, xUnit, yUnit) := Labels(csv, p);
    Plugin.Data(if |file| > 0 then BaseName(file) else "", IntText(p.yColumn), file,
                xType, yType, xUnit, ChopNewline(yUnit), csv.data)
  }

  /**
   * The signal is named after the file without its directories and
   * identified by the y column's number, which reads back as that number;
   * its labels come from the dialog without a header and from the header
   * otherwise, its units from the dialog unless the header carries them,
   * the y unit losing one trailing new line; its points are the table's.
   */
  lemma LoadCsvDataMeaning(csv: CsvData, file: string, p: DialogParameters)
    requires InInt32(p.yColumn)
    ensures var d := LoadCsvData(csv, file, p);
      d.path == file && d.datapoints == csv.data
      && Lacks(d.name, '/') && file[|file| - |d.name|..] == d.name
      && (|d.name| < |file| ==> file[|file| - |d.name| - 1] == '/')
      && StrToInt(d.dataId) == Ok(p.yColumn)
      && (p.header == NoHeader ==> d.xDescription == p.xType && d.yDescription == p.yType)
      && (p.header != NoHeader ==> d.xDescription == csv.xType && d.yDescription == csv.yType)
      && (p.header == HeaderWithUnits ==> d.xUnit == "" && d.yUnit == "")
      && (p.header != HeaderWithUnits ==>
            d.xUnit == p.xUnit
            && (d.yUnit == p.yUnit || d.yUnit + "\n" == p.yUnit)
            && (|d.yUnit| > 0 ==> d.yUnit[|d.yUnit| - 1] != '\n' || d.yUnit + "\n" == p.yUnit))
  {
    IntTextRoundTrip(p.yColumn);
  }

  // ------------------------------------------------------------ the dialog

  /** One showing of the dialog: cancelled, or accepted with what the user entered. */
  datatype Answer = Rejected | Accepted(params: DialogParameters)

  /** The `k`-th answer; past the given ones the user cancels. */
  function AnswerAt(answers: seq<Answer>, k: nat): Answer
  {
    if k < |answers| then answers[k] else Rejected
  }

  /** What the dialog loop ends with: the parameters, the accepted answer, the warnings shown, the next answer. */
  datatype Prompted = Prompted(params: Parameters, accepted: Option<DialogParameters>, warnings: seq<string>, next: nat)

  /**
   * `makeCsvLoaderParameters`: show the dialog from answer `from` on; a
   * cancel gives invalid parameters, a refused answer shows its message and
   * asks again, a usable answer gives its parameters.
   */
  function ParamsFrom(answers: seq<Answer>, from: nat): Prompted
    decreases |answers| - from
  {
    match AnswerAt(answers, from)
    case Rejected => Prompted(NO_PARAMETERS, None, [], from + 1)
    case Accepted(d) =>
      match DialogParamsToLoaderParams(d)
      case Err(msg) =>
        var rest := ParamsFrom(answers, from + 1);
        rest.(warnings := [msg] + rest.warnings)
      case Ok(params) => Prompted(params, Some(d), [], from + 1)
  }

  /**
   * The loop asks at least once; every answer before its last was accepted
   * and refused with the warning shown for it; the last one was a cancel,
   * giving invalid parameters, or an accepted answer whose parameters it
   * gives, valid.
   */
  lemma {:induction false} ParamsFromMeaning(answers: seq<Answer>, from: nat)
    decreases |answers| - from
    ensures var r := ParamsFrom(answers, from);
      r.next > from && |r.warnings| == r.next - 1 - from
      && (forall k :: from <= k < r.next - 1 ==>
            AnswerAt(answers, k).Accepted?
            && DialogParamsToLoaderParams(AnswerAt(answers, k).params) == Err(r.warnings[k - from]))
      && (AnswerAt(answers, r.next - 1).Rejected? ==> r.params == NO_PARAMETERS && r.accepted.None?)
      && (AnswerAt(answers, r.next - 1).Accepted? ==>
            r.accepted == Some(AnswerAt(answers, r.next - 1).params)
            && DialogParamsToLoaderParams(r.accepted.value) == Ok(r.params) && r.params.isValid)
  {
    var a := AnswerAt(answers, from);
    if a.Accepted? && DialogParamsToLoaderParams(a.params).Err? {
      ParamsFromMeaning(answers, from + 1);
      var r := ParamsFrom(answers, from);
      var rest := ParamsFrom(answers, from + 1);
      forall k | from <= k < r.next - 1
        ensures AnswerAt(answers, k).Accepted?
        ensures DialogParamsToLoaderParams(AnswerAt(answers, k).params) == Err(r.warnings[k - from])
      {
        if k > from {
          assert r.warnings[k - from] == rest.warnings[k - (from + 1)];
        }
      }
    }
  }

  /** `makeCsvLoaderParameters`, the dialog shown again after each refused answer. */
  method MakeCsvLoaderParameters(answers: seq<Answer>, from: nat) returns (r: Prompted)
    ensures r == ParamsFrom(answers, from)
  {
    var at := from;
    var warnings: seq<string> := [];
    while true
      invariant at >= from
      invariant ParamsFrom(answers, from) == ParamsFrom(answers, at).(warnings := warnings + ParamsFrom(answers, at).warnings)
      decreases |answers| - at
    {
      match AnswerAt(answers, at) {
        case Rejected =>
          assert warnings + [] == warnings;
          return Prompted(NO_PARAMETERS, None, warnings, at + 1);
        case Accepted(d) =>
          match DialogParamsToLoaderParams(d) {
            case Err(msg) =>
              var rest := ParamsFrom(answers, at + 1);
              assert warnings + ([msg] + rest.warnings) == (warnings + [msg]) + rest.warnings;
              warnings := warnings + [msg];
              at := at + 1;
            case Ok(params) =>
              assert warnings + [] == warnings;
              return Prompted(params, Some(d), warnings, at + 1);
          }
      }
    }
  }

  // ------------------------------------------------------------ loading

  /** Where the dialog loop from `at` ends: past `at`, and at an answer given, accepted, when it gives parameters. */
  lemma ParamsEnd(answers: seq<Answer>, at: nat)
    ensures var pr := ParamsFrom(answers, at);
      pr.next > at
      && (pr.params.isValid <==> AnswerAt(answers, pr.next - 1).Accepted?)
      && (pr.params.isValid ==>
            pr.next <= |answers| && pr.accepted == Some(AnswerAt(answers, pr.next - 1).params)
            && DialogParamsToLoaderParams(pr.accepted.value) == Ok(pr.params))
  {
    ParamsFromMeaning(answers, at);
  }

  /** A read of the data with given parameters: of one file, or of the clipboard. */
  type Reader = Parameters -> CsvData

  /** The read of file `f`. */
  function FileReader(read: (string, Parameters) -> CsvData, f: string): Reader
  {
    p => read(f, p)
  }

  /** Answer `k` is accepted, its parameters are usable, and reading with them succeeds. */
  predicate Succeeds(answers: seq<Answer>, rd: Reader, k: nat)
  {
    AnswerAt(answers, k).Accepted?
    && DialogParamsToLoaderParams(AnswerAt(answers, k).params).Ok?
    && rd(DialogParamsToLoaderParams(AnswerAt(answers, k).params).value).valid
  }

  /** The signal a successful answer `k` gives for `file`. */
  function SignalAt(answers: seq<Answer>, rd: Reader, k: nat, file: string): Plugin.Data
    requires Succeeds(answers, rd, k)
  {
    var dialog := AnswerAt(answers, k).params;
    LoadCsvData(rd(DialogParamsToLoaderParams(dialog).value), file, dialog)
  }

  /**
   * The answer at which asking from `at` on stops: the first one that is a
   * cancel or whose parameters read successfully; every answer before it
   * was accepted and failed.
   */
  function FirstStop(answers: seq<Answer>, rd: Reader, at: nat): (k: nat)
    decreases |answers| - at
    ensures at <= k && (AnswerAt(answers, k).Rejected? || Succeeds(answers, rd, k))
    ensures forall j :: at <= j < k ==> AnswerAt(answers, j).Accepted? && !Succeeds(answers, rd, j)
  {
    if AnswerAt(answers, at).Rejected? || Succeeds(answers, rd, at) then at
    else FirstStop(answers, rd, at + 1)
  }

  /** Answers that were accepted and failed do not move the stop. */
  lemma {:induction false} FirstStopSkips(answers: seq<Answer>, rd: Reader, at: nat, n: nat)
    requires at <= n
    requires forall j :: at <= j < n ==> AnswerAt(answers, j).Accepted? && !Succeeds(answers, rd, j)
    decreases n - at
    ensures FirstStop(answers, rd, at) == FirstStop(answers, rd, n)
  {
    if at < n {
      FirstStopSkips(answers, rd, at + 1, n);
    }
  }

  /** The dialog loop from `at` ends at an answer no earlier than the stop, and at the stop when it is a cancel. */
  lemma ParamsStop(answers: seq<Answer>, rd: Reader, at: nat)
    ensures var pr := ParamsFrom(answers, at);
      pr.next > at
      && FirstStop(answers, rd, at) == FirstStop(answers, rd, pr.next - 1)
      && (!pr.params.isValid ==> FirstStop(answers, rd, at) == pr.next - 1)
  {
    var pr := ParamsFrom(answers, at);
    ParamsFromMeaning(answers, at);
    forall j | at <= j < pr.next - 1
      ensures AnswerAt(answers, j).Accepted? && !Succeeds(answers, rd, j)
    {
    }
    FirstStopSkips(answers, rd, at, pr.next - 1);
  }

  /**
   * What the file loop carries from one file to the next: the parameters,
   * valid or not, the dialog answer they came from, and the next answer.
   */
  datatype FileState = FileState(params: Parameters, dialog: DialogParameters, at: nat)

  /** Valid parameters are those of the dialog answer kept with them. */
  predicate Consistent(s: FileState)
  {
    s.params.isValid ==> DialogParamsToLoaderParams(s.dialog) == Ok(s.params)
  }

  /** The state before the first file: no parameters, the dialog's defaults, the first answer. */
  const START := FileState(NO_PARAMETERS, DialogParameters("", '.', 0, 0, false, "", "", "", "", NoHeader, 0, "", false), 0)

  /**
   * One file of `loadCsvFromFileInternal`: ask for parameters when there
   * are none, read the file, and on a failed read drop the parameters and
   * ask again, until a read succeeds or the dialog is cancelled.
   */
  function OneFile(f: string, rd: Reader, answers: seq<Answer>, s: FileState): (r: (Option<Plugin.Data>, FileState))
    requires Consistent(s)
    decreases |answers| + 1 - s.at, if s.params.isValid then 1 else 0
    ensures Consistent(r.1)
  {
    if s.params.isValid then
      var csv := rd(s.params);
      if csv.valid then (Some(LoadCsvData(csv, f, s.dialog)), s)
      else OneFile(f, rd, answers, s.(params := NO_PARAMETERS))
    else
      var pr := ParamsFrom(answers, s.at);
      ParamsEnd(answers, s.at);
      if !pr.params.isValid then (None, FileState(pr.params, s.dialog, pr.next))
      else OneFile(f, rd, answers, FileState(pr.params, pr.accepted.value, pr.next))
  }

  /**
   * What asking from answer `at` on gives for file `f`: asking ends one past
   * the stop; a stopping answer that succeeds gives its signal and keeps its
   * parameters, and a cancel gives nothing and leaves no parameters.
   */
  predicate AskResult(f: string, rd: Reader, answers: seq<Answer>, at: nat, r: (Option<Plugin.Data>, FileState))
  {
    var k := FirstStop(answers, rd, at);
    r.1.at == k + 1
    && (Succeeds(answers, rd, k) ==>
          r.0 == Some(SignalAt(answers, rd, k, f))
          && r.1.dialog == AnswerAt(answers, k).params
          && Ok(r.1.params) == DialogParamsToLoaderParams(r.1.dialog))
    && (!Succeeds(answers, rd, k) ==> AnswerAt(answers, k).Rejected? && r.0.None? && !r.1.params.isValid)
  }

  /** Asking from two answers with the same stop gives the same. */
  lemma AskResultShift(f: string, rd: Reader, answers: seq<Answer>, a: nat, b: nat, r: (Option<Plugin.Data>, FileState))
    requires FirstStop(answers, rd, a) == FirstStop(answers, rd, b) && AskResult(f, rd, answers, b, r)
    ensures AskResult(f, rd, answers, a, r)
  {
  }

  /** One showing of the dialog loop for a file without parameters, and the read that follows it. */
  lemma AskOnce(f: string, rd: Reader, answers: seq<Answer>, s: FileState)
    requires Consistent(s) && !s.params.isValid
    ensures var pr := ParamsFrom(answers, s.at);
      pr.next > s.at
      && (pr.params.isValid <==> AnswerAt(answers, pr.next - 1).Accepted?)
      && (!pr.params.isValid ==> OneFile(f, rd, answers, s) == (None, FileState(pr.params, s.dialog, pr.next)))
      && (pr.params.isValid ==>
            pr.next <= |answers| && pr.accepted == Some(AnswerAt(answers, pr.next - 1).params)
            && DialogParamsToLoaderParams(pr.accepted.value) == Ok(pr.params)
            && var next := FileState(pr.params, pr.accepted.value, pr.next);
               OneFile(f, rd, answers, s)
                 == if rd(pr.params).valid then (Some(LoadCsvData(rd(pr.params), f, pr.accepted.value)), next)
                    else OneFile(f, rd, answers, next.(params := NO_PARAMETERS)))
  {
    ParamsEnd(answers, s.at);
  }

  /** A dialog loop that ends in a cancel leaves the file without a signal. */
  lemma AskCancelled(f: string, rd: Reader, answers: seq<Answer>, s: FileState)
    requires Consistent(s) && !s.params.isValid && !ParamsFrom(answers, s.at).params.isValid
    ensures AskResult(f, rd, answers, s.at, OneFile(f, rd, answers, s))
  {
    var pr := ParamsFrom(answers, s.at);
    AskOnce(f, rd, answers, s);
    ParamsStop(answers, rd, s.at);
    assert FirstStop(answers, rd, s.at) == pr.next - 1 && !Succeeds(answers, rd, pr.next - 1);
  }

  /** A dialog loop whose parameters read successfully gives the file its signal. */
  lemma AskRead(f: string, rd: Reader, answers: seq<Answer>, s: FileState)
    requires Consistent(s) && !s.params.isValid
    requires ParamsFrom(answers, s.at).params.isValid && rd(ParamsFrom(answers, s.at).params).valid
    ensures AskResult(f, rd, answers, s.at, OneFile(f, rd, answers, s))
  {
    var pr := ParamsFrom(answers, s.at);
    var n := pr.next - 1;
    AskOnce(f, rd, answers, s);
    var d := AnswerAt(answers, n).params;
    assert pr.accepted == Some(d) && DialogParamsToLoaderParams(d) == Ok(pr.params);
    var signal := LoadCsvData(rd(pr.params), f, d);
    assert OneFile(f, rd, answers, s) == (Some(signal), FileState(pr.params, d, pr.next));
    assert Succeeds(answers, rd, n) && SignalAt(answers, rd, n, f) == signal;
    ParamsStop(answers, rd, s.at);
    assert FirstStop(answers, rd, s.at) == n;
  }

  /** A file without parameters is loaded as asking from the next answer on gives. */
  lemma {:induction false} AskStops(f: string, rd: Reader, answers: seq<Answer>, s: FileState)
    requires Consistent(s) && !s.params.isValid
    decreases |answers| + 1 - s.at
    ensures AskResult(f, rd, answers, s.at, OneFile(f, rd, answers, s))
  {
    var pr := ParamsFrom(answers, s.at);
    AskOnce(f, rd, answers, s);
    if !pr.params.isValid {
      AskCancelled(f, rd, answers, s);
    } else if rd(pr.params).valid {
      AskRead(f, rd, answers, s);
    } else {
      var cleared := FileState(NO_PARAMETERS, pr.accepted.value, pr.next);
      AskStops(f, rd, answers, cleared);
      ParamsStop(answers, rd, s.at);
      assert FirstStop(answers, rd, s.at) == FirstStop(answers, rd, pr.next) by {
        assert !Succeeds(answers, rd, pr.next - 1);
      }
      AskResultShift(f, rd, answers, s.at, pr.next, OneFile(f, rd, answers, cleared));
    }
  }

  /**
   * A file whose kept parameters read successfully gives its signal and
   * asks nothing; otherwise the parameters are dropped and the file is
   * loaded as asking from the next answer on gives.
   */
  lemma OneFileStops(f: string, rd: Reader, answers: seq<Answer>, s: FileState)
    requires Consistent(s)
    ensures var r := OneFile(f, rd, answers, s);
      if s.params.isValid && rd(s.params).valid then r == (Some(LoadCsvData(rd(s.params), f, s.dialog)), s)
      else AskResult(f, rd, answers, s.at, r)
  {
    if s.params.isValid && !rd(s.params).valid {
      AskStops(f, rd, answers, s.(params := NO_PARAMETERS));
    } else if !s.params.isValid {
      AskStops(f, rd, answers, s);
    }
  }

  /** `loadCsvFromFileInternal` over the remaining files, from state `s`. */
  function FromFiles(files: seq<string>, read: (string, Parameters) -> CsvData, answers: seq<Answer>, s: FileState): seq<Plugin.Data>
    requires Consistent(s)
  {
    if |files| == 0 then []
    else
      var r := OneFile(files[0], FileReader(read, files[0]), answers, s);
      (if r.0.Some? then [r.0.value] else []) + FromFiles(files[1..], read, answers, r.1)
  }

  /**
   * Once the kept parameters read every remaining file, each file gives
   * its signal with them, in file order, and the dialog is not shown again.
   */
  lemma {:induction false} FromFilesReuse(files: seq<string>, read: (string, Parameters) -> CsvData,
                                          answers: seq<Answer>, s: FileState)
    requires Consistent(s) && s.params.isValid
    requires forall k :: 0 <= k < |files| ==> read(files[k], s.params).valid
    ensures var out := FromFiles(files, read, answers, s);
      |out| == |files|
      && forall k :: 0 <= k < |files| ==> out[k] == LoadCsvData(read(files[k], s.params), files[k], s.dialog)
  {
    if |files| > 0 {
      var csv := read(files[0], s.params);
      var r := OneFile(files[0], FileReader(read, files[0]), answers, s);
      assert r == (Some(LoadCsvData(csv, files[0], s.dialog)), s) by {
        assert FileReader(read, files[0])(s.params) == csv;
      }
      var rest := files[1..];
      FromFilesReuse(rest, read, answers, s);
      var tail := FromFiles(rest, read, answers, s);
      assert FromFiles(files, read, answers, s) == [LoadCsvData(csv, files[0], s.dialog)] + tail;
      assert forall k :: 0 < k < |files| ==> rest[k - 1] == files[k];
    }
  }

  /** One file of `loadCsvFromFileInternal`, the dialog loop and the read repeated until one ends it. */
  method LoadOneFile(f: string, answers: seq<Answer>, read: (string, Parameters) -> CsvData, s0: FileState)
    returns (d: Option<Plugin.Data>, s: FileState)
    requires Consistent(s0)
    ensures (d, s) == OneFile(f, FileReader(read, f), answers, s0)
  {
    s := s0;
    while true
      invariant Consistent(s)
      invariant OneFile(f, FileReader(read, f), answers, s) == OneFile(f, FileReader(read, f), answers, s0)
      decreases |answers| + 1 - s.at, if s.params.isValid then 1 else 0
    {
      if !s.params.isValid {
        var prompted := MakeCsvLoaderParameters(answers, s.at);
        ParamsEnd(answers, s.at);
        if !prompted.params.isValid {
          return None, FileState(prompted.params, s.dialog, prompted.next);
        }
        s := FileState(prompted.params, prompted.accepted.value, prompted.next);
      }
      var csvData := read(f, s.params);
      assert csvData == FileReader(read, f)(s.params);
      if !csvData.valid {
        s := s.(params := NO_PARAMETERS);
        continue;
      }
      return Some(LoadCsvData(csvData, f, s.dialog)), s;
    }
  }

  /**
   * `loadCsvFromFileInternal`: each file in turn, the parameters of a
   * successful read kept for the next file. The `k`-th showing of the
   * dialog gives `answers[k]`; `read` is the loader's read of a file with
   * given parameters.
   */
  method LoadCsvFromFileInternal(files: seq<string>, answers: seq<Answer>, read: (string, Parameters) -> CsvData)
    returns (out: seq<Plugin.Data>)
    ensures out == FromFiles(files, read, answers, START)
  {
    out := [];
    var s := START;
    for fdx := 0 to |files|
      invariant Consistent(s)
      invariant FromFiles(files, read, answers, START) == out + FromFiles(files[fdx..], read, answers, s)
    {
      var d, next := LoadOneFile(files[fdx], answers, read, s);
      var got: seq<Plugin.Data> := if d.Some? then [d.value] else [];
      assert files[fdx..][1..] == files[fdx + 1..];
      assert FromFiles(files[fdx..], read, answers, s) == got + FromFiles(files[fdx + 1..], read, answers, next);
      Assoc3(out, got, FromFiles(files[fdx + 1..], read, answers, next));
      out, s := out + got, next;
    }
    assert files[|files|..] == [];
    assert out + [] == out;
  }

  /** `loadCsvFromClipboard` from answer `at` on: ask and read until a read succeeds or the dialog is cancelled. */
  function ClipboardFrom(rd: Reader, answers: seq<Answer>, at: nat): seq<Plugin.Data>
    decreases |answers| + 1 - at
  {
    var pr := ParamsFrom(answers, at);
    ParamsEnd(answers, at);
    if !pr.params.isValid then []
    else
      var csv := rd(pr.params);
      if csv.valid then [LoadCsvData(csv, "", pr.accepted.value)]
      else ClipboardFrom(rd, answers, pr.next)
  }

  /**
   * The clipboard gives exactly one signal, without a file name, from the
   * answer at which asking stops when that answer succeeds, and nothing
   * when it is a cancel.
   */
  lemma {:induction false} ClipboardStops(rd: Reader, answers: seq<Answer>, at: nat)
    decreases |answers| + 1 - at
    ensures var k := FirstStop(answers, rd, at);
      ClipboardFrom(rd, answers, at) == if Succeeds(answers, rd, k) then [SignalAt(answers, rd, k, "")] else []
  {
    var pr := ParamsFrom(answers, at);
    ParamsEnd(answers, at);
    ParamsStop(answers, rd, at);
    if pr.params.isValid && !rd(pr.params).valid {
      assert ClipboardFrom(rd, answers, at) == ClipboardFrom(rd, answers, pr.next);
      ClipboardStops(rd, answers, pr.next);
      assert !Succeeds(answers, rd, pr.next - 1);
      assert FirstStop(answers, rd, pr.next - 1) == FirstStop(answers, rd, pr.next);
    }
  }

  /**
   * `loadCsvFromClipboard`: ask for parameters and read the clipboard until
   * a read succeeds, giving its one signal without a file, or the dialog is
   * cancelled, giving nothing.
   */
  method LoadCsvFromClipboard(answers: seq<Answer>, readClipboard: Reader) returns (out: seq<Plugin.Data>)
    ensures out == ClipboardFrom(readClipboard, answers, 0)
  {
    var at := 0;
    while true
      invariant ClipboardFrom(readClipboard, answers, at) == ClipboardFrom(readClipboard, answers, 0)
      decreases |answers| + 1 - at
    {
      var prompted := MakeCsvLoaderParameters(answers, at);
      ParamsEnd(answers, at);
      if !prompted.params.isValid {
        return [];
      }
      var csvData := readClipboard(prompted.params);
      if !csvData.valid {
        at := prompted.next;
        continue;
      }
      return [LoadCsvData(csvData, "", prompted.accepted.value)];
    }
  }

  // ------------------------------------------------------------ entry points

  /** What a load option leads to: the file dialog, a given path, the clipboard, or nothing. */
  datatype Request = FromFileDialog(hint: string) | FromPaths(paths: seq<string>) | FromClipboard | NoRequest

  /** `load`: option 0 opens the file dialog, 1 reads the clipboard. */
  function Load(option: int): Request
  {
    if option == 0 then FromFileDialog("") else if option == 1 then FromClipboard else NoRequest
  }

  /** `loadHint`: as `load`, the file dialog starting at the hint. */
  function LoadHint(hintPath: string, option: int): Request
  {
    if option == 0 then FromFileDialog(hintPath) else if option == 1 then FromClipboard else NoRequest
  }

  /** `loadPath`: as `load`, reading the one given path. */
  function LoadPath(path: string, option: int): Request
  {
    if option == 0 then FromPaths([path]) else if option == 1 then FromClipboard else NoRequest
  }

  /**
   * The options are those the identifier lists: an option outside them
   * loads nothing, "file" loads from files and "clipboard" from the clipboard.
   */
  lemma LoadOptionsMatchIdentifier(option: int, hint: string, path: string)
    ensures var known := 0 <= option < |CSV_IDENTIFIER.loadOptions|;
      (Load(option) == NoRequest <==> !known)
      && (LoadHint(hint, option) == NoRequest <==> !known)
      && (LoadPath(path, option) == NoRequest <==> !known)
      && (known && CSV_IDENTIFIER.loadOptions[option] == "file" ==>
            Load(option).FromFileDialog? && LoadHint(hint, option) == FromFileDialog(hint)
            && LoadPath(path, option) == FromPaths([path]))
      && (known && CSV_IDENTIFIER.loadOptions[option] == "clipboard" ==>
            Load(option) == LoadHint(hint, option) == LoadPath(path, option) == FromClipboard)
  {
  }
}
