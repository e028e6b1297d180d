/**
 * The EZChrom/32Karat plugin: the choice of channels to load, kept across
 * the files of one load, and the turning of the traces of a file into
 * loaded signals.
 */
module EZChromSupport {
  import opened Wrappers
  import opened Strings
  import Plugin

  const EZCHROM_IDENTIFIER := Plugin.Identifier("EZChrom/32Karat data", "EZChrom/32Karat", "EZChrom", [])

  const NO_FILE_NAME_MSG := "Cannot determine file name"
  const DUPLICATE_NAMES_MSG := "Data file contains multiple traces with the same name. We do not allow this."
  const TIME_LABEL := "Time"
  const SIGNAL_LABEL := "Signal"

  /** One scan of a trace. */
  datatype Scan = Scan(x: real, y: real)

  /** One trace of a data file, as the file reader gives it. */
  datatype Trace = Trace(name: string, xUnits: string, yUnits: string, scans: seq<Scan>)

  /** A channel offered for selection: its name and its y units. */
  type Channel = (string, string)

  /** The channel dialog: closed, or accepted with each channel's name and whether it is checked. */
  datatype ChannelsAnswer = Closed | Checked(selection: seq<(string, bool)>)

  // ------------------------------------------------------------ selection

  /** The names of the channels on offer. */
  function NamesOf(available: seq<Channel>): set<string>
  {
    set j | 0 <= j < |available| :: available[j].0
  }

  /** The names checked in the dialog. */
  function CheckedNames(selection: seq<(string, bool)>): set<string>
  {
    set j | 0 <= j < |selection| && selection[j].1 :: selection[j].0
  }

  /** The dialog is shown when nothing is selected or a selected channel is not on offer. */
  predicate NeedsPrompt(selected: set<string>, available: seq<Channel>)
  {
    selected == {} || !(selected <= NamesOf(available))
  }

  /** The selection after `maybeUpdateSelectedChannels`, and whether the dialog was shown. */
  function UpdatedSelection(selected: set<string>, available: seq<Channel>, answer: ChannelsAnswer): (set<string>, bool)
  {
    if !NeedsPrompt(selected, available) then (selected, false)
    else match answer
      case Closed => (NamesOf(available), true)
      case Checked(selection) => (CheckedNames(selection), true)
  }

  /** `std::find_if` over the channels, by name. */
  method FindChannel(channels: seq<Channel>, name: string) returns (found: bool)
    ensures found <==> name in NamesOf(channels)
  {
    for j := 0 to |channels|
      invariant forall i :: 0 <= i < j ==> channels[i].0 != name
    {
      if channels[j].0 == name {
        return true;
      }
    }
    found := false;
  }

  /**
   * `maybeUpdateSelectedChannels`: look for a selected name not on offer;
   * if there is one, or nothing is selected, clear the selection and fill
   * it with every channel when the dialog is closed, or with the checked
   * names when it is accepted.
   */
  method MaybeUpdateSelectedChannels(selected: set<string>, available: seq<Channel>, answer: ChannelsAnswer)
    returns (updated: set<string>, prompted: bool)
    ensures (updated, prompted) == UpdatedSelection(selected, available, answer)
  {
    prompted := selected == {};
    if !prompted {
      var rest := selected;
      while rest != {}
        invariant rest <= selected
        invariant selected - rest <= NamesOf(available)
        decreases |rest|
      {
        var name :| name in rest;
        var found := FindChannel(available, name);
        if !found {
          prompted := true;
          break;
        }
        rest := rest - {name};
      }
    }
    if !prompted {
      return selected, false;
    }
    updated := {};
    match answer {
      case Closed =>
        for j := 0 to |available|
          invariant updated == set i | 0 <= i < j :: available[i].0
        {
          updated := updated + {available[j].0};
        }
      case Checked(selection) =>
        for j := 0 to |selection|
          invariant updated == set i | 0 <= i < j && selection[i].1 :: selection[i].0
        {
          if selection[j].1 {
            updated := updated + {selection[j].0};
          }
        }
    }
  }

  /**
   * The dialog is shown exactly when nothing is selected or a selected name
   * is not on offer; without it the selection is kept. A closed dialog
   * selects every channel, which is not asked about again for the same
   * channels; an accepted one selects exactly the checked names, and the
   * same channels are not asked about again when some name is checked and
   * every checked name is on offer.
   */
  lemma UpdatedSelectionMeaning(selected: set<string>, available: seq<Channel>, answer: ChannelsAnswer)
    ensures var (updated, prompted) := UpdatedSelection(selected, available, answer);
      (prompted <==> selected == {} || exists n :: n in selected && n !in NamesOf(available))
      && (!prompted ==> updated == selected)
      && (prompted && answer.Closed? ==>
            (forall j :: 0 <= j < |available| ==> available[j].0 in updated)
            && (|available| > 0 ==> !NeedsPrompt(updated, available)))
      && (prompted && answer.Checked? ==>
            (forall n :: n in updated <==> exists j :: 0 <= j < |answer.selection| && answer.selection[j] == (n, true))
            && (updated != {} && updated <= NamesOf(available) ==> !NeedsPrompt(updated, available)))
  {
    var (updated, prompted) := UpdatedSelection(selected, available, answer);
    if prompted && answer.Closed? && |available| > 0 {
      assert available[0].0 in updated;
    }
    if prompted && answer.Checked? {
      var sel := answer.selection;
      forall n ensures n in updated <==> exists j :: 0 <= j < |sel| && sel[j] == (n, true) {
        if n in updated {
          var j :| 0 <= j < |sel| && sel[j].1 && sel[j].0 == n;
          assert sel[j] == (n, true);
        }
      }
    }
  }

  // ------------------------------------------------------------ one file

  /** Two traces of the file share a name. */
  predicate HasDuplicateNames(traces: seq<Trace>)
  {
    exists i, j :: 0 <= i < j < |traces| && traces[i].name == traces[j].name
  }

  /** The channels a file offers: each trace's name and y units, in order. */
  function ChannelsOf(traces: seq<Trace>): (cs: seq<Channel>)
    ensures |cs| == |traces|
  {
    seq(|traces|, i requires 0 <= i < |traces| => (traces[i].name, traces[i].yUnits))
  }

  /** A trace's scans as [x, y] points, in scan order. */
  function PointsOf(scans: seq<Scan>): seq<(real, real)>
  {
    seq(|scans|, i requires 0 <= i < |scans| => (scans[i].x, scans[i].y))
  }

  /** The signal for one trace of a file. */
  function TraceData(fileName: string, path: string, t: Trace): Plugin.Data
  {
    Plugin.Data(fileName, t.name, path, TIME_LABEL, SIGNAL_LABEL, t.xUnits, t.yUnits, PointsOf(t.scans))
  }

  /** The signals of the selected traces, in file order. */
  function SelectedData(fileName: string, path: string, traces: seq<Trace>, selected: set<string>): seq<Plugin.Data>
  {
    if |traces| == 0 then []
    else
      var last := traces[|traces| - 1];
      SelectedData(fileName, path, traces[..|traces| - 1], selected)
      + (if last.name in selected then [TraceData(fileName, path, last)] else [])
  }

  /**
   * The output holds one signal per selected trace and nothing else: each
   * is the signal of a trace of the file, named after the file, identified
   * by the trace's name, described as time against signal, with the trace's
   * units and its scans in order.
   */
  lemma {:induction false} SelectedDataMeaning(fileName: string, path: string, traces: seq<Trace>, selected: set<string>)
    ensures var out := SelectedData(fileName, path, traces, selected);
      |out| <= |traces|
      && (forall k :: 0 <= k < |out| ==>
            out[k].dataId in selected
            && exists i :: 0 <= i < |traces| && out[k] == TraceData(fileName, path, traces[i]))
      && (forall i :: 0 <= i < |traces| && traces[i].name in selected ==>
            TraceData(fileName, path, traces[i]) in out)
  {
    if |traces| > 0 {
      var init := traces[..|traces| - 1];
      var last := traces[|traces| - 1];
      SelectedDataMeaning(fileName, path, init, selected);
      var out := SelectedData(fileName, path, traces, selected);
      var before := SelectedData(fileName, path, init, selected);
      assert out[..|before|] == before;
      forall k | 0 <= k < |out|
        ensures out[k].dataId in selected
        ensures exists i :: 0 <= i < |traces| && out[k] == TraceData(fileName, path, traces[i])
      {
        if k < |before| {
          var i :| 0 <= i < |init| && before[k] == TraceData(fileName, path, init[i]);
          assert traces[i] == init[i];
        } else {
          assert out[k] == TraceData(fileName, path, traces[|traces| - 1]);
        }
      }
      forall i | 0 <= i < |traces| && traces[i].name in selected
        ensures TraceData(fileName, path, traces[i]) in out
      {
        if i < |init| {
          assert init[i] == traces[i];
          var k :| 0 <= k < |before| && before[k] == TraceData(fileName, path, init[i]);
          assert out[k] == before[k];
        } else {
          assert out[|out| - 1] == TraceData(fileName, path, last);
        }
      }
    }
  }

  /** What loading one file gives: its signals or the error raised, and the selection afterwards. */
  datatype FileOutcome = FileOutcome(result: Result<seq<Plugin.Data>, string>, selected: set<string>, prompted: bool)

  /**
   * `loadSingleFile`: refuse a path without a file name, a file that cannot
   * be read (`read` is the reader's outcome, with its message) and a file
   * with two traces of one name; otherwise update the selection for the
   * file's channels and give the signals of the selected traces.
   */
  function SingleFile(path: string, selected: set<string>, read: Result<seq<Trace>, string>,
                      answer: ChannelsAnswer): FileOutcome
  {
    var fileName := BaseName(path);
    if fileName == "" then FileOutcome(Err(NO_FILE_NAME_MSG), selected, false)
    else match read
      case Err(msg) => FileOutcome(Err(msg), selected, false)
      case Ok(traces) =>
        if HasDuplicateNames(traces) then FileOutcome(Err(DUPLICATE_NAMES_MSG), selected, false)
        else
          var (updated, prompted) := UpdatedSelection(selected, ChannelsOf(traces), answer);
          FileOutcome(Ok(SelectedData(fileName, path, traces, updated)), updated, prompted)
  }

  /**
   * A refused file leaves the selection as it was and shows no dialog; a
   * loaded one has distinct trace names and gives only selected traces.
   */
  lemma SingleFileMeaning(path: string, selected: set<string>, read: Result<seq<Trace>, string>, answer: ChannelsAnswer)
    ensures var o := SingleFile(path, selected, read, answer);
      (BaseName(path) == "" ==> o.result == Err(NO_FILE_NAME_MSG))
      && (o.result.Err? ==> o.selected == selected && !o.prompted)
      && (o.result.Ok? ==>
            read.Ok? && !HasDuplicateNames(read.value)
            && (forall k :: 0 <= k < |o.result.value| ==>
                  o.result.value[k].dataId in o.selected && o.result.value[k].name == BaseName(path)
                  && o.result.value[k].path == path)
            && (forall i :: 0 <= i < |read.value| && read.value[i].name in o.selected ==>
                  TraceData(BaseName(path), path, read.value[i]) in o.result.value))
  {
    if read.Ok? && BaseName(path) != "" && !HasDuplicateNames(read.value) {
      var (updated, prompted) := UpdatedSelection(selected, ChannelsOf(read.value), answer);
      SelectedDataMeaning(BaseName(path), path, read.value, updated);
    }
  }

  /** The scan loop: each scan becomes a point. */
  method CopyScans(scans: seq<Scan>) returns (points: seq<(real, real)>)
    ensures points == PointsOf(scans)
  {
    points := [];
    for sdx := 0 to |scans|
      invariant points == PointsOf(scans[..sdx])
    {
      assert scans[..sdx + 1][..sdx] == scans[..sdx];
      points := points + [(scans[sdx].x, scans[sdx].y)];
    }
    assert scans[..|scans|] == scans;
  }

  /** The duplicate-name loop: collect the channels, stopping at a name already collected. */
  method CollectChannels(traces: seq<Trace>) returns (channels: seq<Channel>, duplicate: bool)
    ensures duplicate <==> HasDuplicateNames(traces)
    ensures !duplicate ==> channels == ChannelsOf(traces)
  {
    channels := [];
    for idx := 0 to |traces|
      invariant channels == ChannelsOf(traces[..idx])
      invariant !HasDuplicateNames(traces[..idx])
    {
      var found := FindChannel(channels, traces[idx].name);
      if found {
        var j :| 0 <= j < |channels| && channels[j].0 == traces[idx].name;
        assert traces[j].name == traces[idx].name;
        return channels, true;
      }
      forall i | 0 <= i < idx
        ensures traces[i].name != traces[idx].name
      {
        assert channels[i].0 == traces[..idx][i].name == traces[i].name;
        assert channels[i].0 in NamesOf(channels);
      }
      ghost var prefix := traces[..idx + 1];
      assert prefix[..idx] == traces[..idx];
      assert !HasDuplicateNames(prefix) by {
        forall i, j | 0 <= i < j < |prefix|
          ensures prefix[i].name != prefix[j].name
        {
          if j < idx {
            assert prefix[i] == traces[..idx][i] && prefix[j] == traces[..idx][j];
          }
        }
      }
      channels := channels + [(traces[idx].name, traces[idx].yUnits)];
    }
    assert traces[..|traces|] == traces;
    duplicate := false;
  }

  /** The output loop: a signal for each selected trace, in file order. */
  method CollectSelected(fileName: string, path: string, traces: seq<Trace>, selected: set<string>)
    returns (data: seq<Plugin.Data>)
    ensures data == SelectedData(fileName, path, traces, selected)
  {
    data := [];
    for idx := 0 to |traces|
      invariant data == SelectedData(fileName, path, traces[..idx], selected)
    {
      assert traces[..idx + 1][..idx] == traces[..idx];
      var trace := traces[idx];
      if trace.name in selected {
        var points := CopyScans(trace.scans);
        data := data + [Plugin.Data(fileName, trace.name, path, TIME_LABEL, SIGNAL_LABEL,
                                    trace.xUnits, trace.yUnits, points)];
      }
    }
    assert traces[..|traces|] == traces;
  }

  /** `loadSingleFile`, loop by loop. */
  method LoadSingleFile(path: string, selected: set<string>, read: Result<seq<Trace>, string>, answer: ChannelsAnswer)
    returns (result: Result<seq<Plugin.Data>, string>, updated: set<string>, prompted: bool)
    ensures FileOutcome(result, updated, prompted) == SingleFile(path, selected, read, answer)
  {
    var fileName := BaseName(path);
    if fileName == "" {
      return Err(NO_FILE_NAME_MSG), selected, false;
    }
    if read.Err? {
      return Err(read.error), selected, false;
    }
    var channels, duplicate := CollectChannels(read.value);
    if duplicate {
      return Err(DUPLICATE_NAMES_MSG), selected, false;
    }
    updated, prompted := MaybeUpdateSelectedChannels(selected, channels, answer);
    var data := CollectSelected(fileName, path, read.value, updated);
    result := Ok(data);
  }

  // ------------------------------------------------------------ several files

  /** What a load of several files gives: the signals and the warnings shown. */
  datatype Gathered = Gathered(data: seq<Plugin.Data>, warnings: seq<string>)

  /** The `k`-th showing of the channel dialog; past the given answers it is closed. */
  function AnswerAt(answers: seq<ChannelsAnswer>, k: nat): ChannelsAnswer
  {
    if k < |answers| then answers[k] else Closed
  }

  /** One file loaded with a given selection and dialog answer. */
  type FileLoad = (string, set<string>, ChannelsAnswer) -> FileOutcome

  /** `loadSingleFile` for every path, with `read` giving each file's traces. */
  function FileLoader(read: string -> Result<seq<Trace>, string>): FileLoad
  {
    (path, selected, answer) => SingleFile(path, selected, read(path), answer)
  }

  /**
   * `loadInteractive` from file `files[0]` on, with the selection so far and
   * the next dialog answer `at`: each file's signals follow those of the
   * files before it, a refused file gives its warning instead, and the
   * selection passes from file to file.
   */
  function Interactive(files: seq<string>, load: FileLoad, selected: set<string>,
                       answers: seq<ChannelsAnswer>, at: nat): Gathered
  {
    if |files| == 0 then Gathered([], [])
    else
      var o := load(files[0], selected, AnswerAt(answers, at));
      var rest := Interactive(files[1..], load, o.selected, answers, if o.prompted then at + 1 else at);
      match o.result
      case Ok(ds) => rest.(data := ds + rest.data)
      case Err(msg) => rest.(warnings := [msg] + rest.warnings)
  }

  /**
   * `Interactive` over one more file: that file's outcome `o` is added to
   * what has been gathered, and the rest is loaded with the selection it left.
   */
  lemma InteractiveUnfold(files: seq<string>, fdx: nat, load: FileLoad, selected: set<string>,
                          answers: seq<ChannelsAnswer>, at: nat, o: FileOutcome, gathered: Gathered)
    requires fdx < |files| && o == load(files[fdx], selected, AnswerAt(answers, at))
    ensures var rest := Interactive(files[fdx..], load, selected, answers, at);
      var next := Interactive(files[fdx + 1..], load, o.selected, answers, if o.prompted then at + 1 else at);
      Gathered(gathered.data + rest.data, gathered.warnings + rest.warnings)
        == if o.result.Ok? then Gathered((gathered.data + o.result.value) + next.data, gathered.warnings + next.warnings)
           else Gathered(gathered.data + next.data, (gathered.warnings + [o.result.error]) + next.warnings)
  {
    assert files[fdx..][1..] == files[fdx + 1..];
    var next := Interactive(files[fdx + 1..], load, o.selected, answers, if o.prompted then at + 1 else at);
    if o.result.Ok? {
      assert gathered.data + (o.result.value + next.data) == (gathered.data + o.result.value) + next.data;
    } else {
      assert gathered.warnings + ([o.result.error] + next.warnings) == (gathered.warnings + [o.result.error]) + next.warnings;
    }
  }

  /** One turn of `loadInteractive`'s loop: a file loaded with the selection so far and the next dialog answer. */
  method LoadNextFile(path: string, read: string -> Result<seq<Trace>, string>, selected: set<string>,
                      answers: seq<ChannelsAnswer>, at: nat)
    returns (result: Result<seq<Plugin.Data>, string>, updated: set<string>, next: nat)
    ensures var o := FileLoader(read)(path, selected, AnswerAt(answers, at));
      result == o.result && updated == o.selected && next == if o.prompted then at + 1 else at
  {
    var prompted;
    result, updated, prompted := LoadSingleFile(path, selected, read(path), AnswerAt(answers, at));
    next := if prompted then at + 1 else at;
  }

  /**
   * `loadInteractive` over the files chosen in the file dialog: load each
   * with the selection carried over, collect the signals in order and
   * report the files that fail.
   */
  method LoadInteractive(files: seq<string>, read: string -> Result<seq<Trace>, string>, answers: seq<ChannelsAnswer>)
    returns (allData: seq<Plugin.Data>, warnings: seq<string>)
    ensures Gathered(allData, warnings) == Interactive(files, FileLoader(read), {}, answers, 0)
  {
    ghost var load := FileLoader(read);
    ghost var whole := Interactive(files, load, {}, answers, 0);
    allData, warnings := [], [];
    var channels: set<string> := {};
    var at := 0;
    assert files[0..] == files;
    for fdx := 0 to |files|
      invariant var rest := Interactive(files[fdx..], load, channels, answers, at);
        whole == Gathered(allData + rest.data, warnings + rest.warnings)
    {
      ghost var o := load(files[fdx], channels, AnswerAt(answers, at));
      var result, updated, next := LoadNextFile(files[fdx], read, channels, answers, at);
      InteractiveUnfold(files, fdx, load, channels, answers, at, o, Gathered(allData, warnings));
      if result.Ok? {
        allData := allData + result.value;
      } else {
        warnings := warnings + [result.error];
      }
      channels, at := updated, next;
    }
    assert allData + [] == allData && warnings + [] == warnings;
  }

  /**
   * Over the real loader: a file that fails adds its warning and no signal
   * and leaves the selection for the next file as it was; a loaded file adds
   * its signals after those of the earlier files.
   */
  lemma InteractiveStep(files: seq<string>, read: string -> Result<seq<Trace>, string>,
                        selected: set<string>, answers: seq<ChannelsAnswer>, at: nat)
    requires |files| > 0
    ensures var o := SingleFile(files[0], selected, read(files[0]), AnswerAt(answers, at));
      var g := Interactive(files, FileLoader(read), selected, answers, at);
      (o.result.Err? ==>
         g == Interactive(files[1..], FileLoader(read), selected, answers, at).(warnings := [o.result.error] + Interactive(files[1..], FileLoader(read), selected, answers, at).warnings))
      && (o.result.Ok? ==>
         var rest := Interactive(files[1..], FileLoader(read), o.selected, answers, if o.prompted then at + 1 else at);
         g.data == o.result.value + rest.data && g.warnings == rest.warnings)
  {
    SingleFileMeaning(files[0], selected, read(files[0]), AnswerAt(answers, at));
  }

  /** `loadPath`: one file, with no channel selected yet, so the dialog is always shown for a readable file. */
  method LoadPath(path: string, read: Result<seq<Trace>, string>, answer: ChannelsAnswer)
    returns (result: Result<seq<Plugin.Data>, string>)
    ensures result == SingleFile(path, {}, read, answer).result
    ensures result.Ok? ==> SingleFile(path, {}, read, answer).prompted
  {
    var updated, prompted;
    result, updated, prompted := LoadSingleFile(path, {}, read, answer);
  }
}
