/**
 * Reading the data traces of an ASC file (`parseTraces`): the channels in
 * order, each taking as many trace lines as its point count; a selected
 * channel turns its lines into one loaded signal, an unselected one skips
 * them.
 */
module AscTraces {
  import opened Wrappers
  import opened Strings
  import opened AscText
  import opened AscHeader
  import Plugin

  const END_OF_TRACE_MSG: string := "Unexpected end of data trace"
  // What the standard exceptions that escape `parseTraces` stand for: a
  // checked index (`at`) out of range, and `reserve` of a negative count.
  const OUT_OF_RANGE_MSG: string := "vector::at: index out of range"
  const RESERVE_MSG: string := "vector::reserve"
  const CHANNEL_PREFIX: string := "Channel "

  /** The user's choice per channel: the unit it was offered with and whether it was ticked. */
  type Selection = seq<(string, bool)>

  /** What scales a selected channel's points: its sampling rate and the two multipliers. */
  datatype Scaling = Scaling(rate: real, xMultiplier: real, yMultiplier: real)

  /**
   * The floating-point scaling of one point, from the channel's scaling,
   * the point's index and the value read from its line.
   */
  type PointFn = (Scaling, nat, real) -> (real, real)

  /**
   * How reading the traces ends: the signals (after those already there)
   * and whether lines were left over, a failure, or behaviour the C++
   * standard leaves undefined.
   */
  datatype Outcome = Parsed(data: seq<Plugin.Data>, longer: bool) | Failed(failure: Failure) | Undefined

  /** How reading one selected channel's points ends. */
  datatype Run = Ran(points: seq<(real, real)>, next: nat) | RunFailed(failure: Failure) | RunUndefined

  /** What one channel contributes: a skip, a signal, or the end of reading. */
  datatype Step = Skip(next: nat) | Emit(signal: Plugin.Data, next: nat) | Stop(outcome: Outcome)

  /** `isSelected`: the channel was offered with its own unit, and ticked. */
  predicate IsSelected(ctx: Context, sel: Selection, ch: nat)
    requires ch < |ctx.yAxisTitles| && ch < |sel|
  {
    ctx.yAxisTitles[ch] == sel[ch].0 && sel[ch].1
  }

  /** The `dataId` of channel `ch`: "Channel " and its index in decimal. */
  function ChannelId(ch: nat): string
  {
    CHANNEL_PREFIX + IntText(ch)
  }

  /** The signal a selected channel yields. */
  function ChannelData(ctx: Context, ch: nat, points: seq<(real, real)>): Plugin.Data
    requires ch < |ctx.xAxisTitles| && ch < |ctx.yAxisTitles|
  {
    Plugin.Data(ctx.name, ChannelId(ch), ctx.path, "Time", "Signal",
                ctx.xAxisTitles[ch], ctx.yAxisTitles[ch], points)
  }

  /** `d` is the signal of channel `ch`: named after it, with its units and the file's name and path. */
  predicate SignalFor(ctx: Context, d: Plugin.Data, ch: nat)
  {
    ch < |ctx.xAxisTitles| && ch < |ctx.yAxisTitles|
    && d.dataId == ChannelId(ch)
    && d.name == ctx.name && d.path == ctx.path
    && d.xUnit == ctx.xAxisTitles[ch] && d.yUnit == ctx.yAxisTitles[ch]
  }

  /**
   * The points loop of a selected channel from line `pos` and point `pt`,
   * with `acc` read so far. Every point reads its line and advances; a
   * line that runs out before the last point is an error. Reading a line
   * when none is left is undefined in the source; `fixed` rejects it with
   * the same error instead.
   */
  function ChannelRun(traces: seq<string>, pos: nat, pt: nat, n: nat, acc: seq<(real, real)>, sc: Scaling,
                      toDouble: string -> Result<real, NumError>, point: PointFn, fixed: bool): (r: Run)
    requires pos <= |traces| && pt <= n
    decreases n - pt
    ensures r.Ran? ==> r.next == pos + (n - pt) <= |traces| && |r.points| == |acc| + (n - pt)
    ensures fixed ==> !r.RunUndefined?
  {
    if pt == n then Ran(acc, pos)
    else if pos == |traces| then (if fixed then RunFailed(AscFormat(END_OF_TRACE_MSG)) else RunUndefined)
    else match DoubleOf(traces[pos], toDouble)
      case Err(e) => RunFailed(e)
      case Ok(v) =>
        if pos + 1 == |traces| && pt != n - 1 then RunFailed(AscFormat(END_OF_TRACE_MSG))
        else ChannelRun(traces, pos + 1, pt + 1, n, acc + [point(sc, pt, v)], sc, toDouble, point, fixed)
  }

  /**
   * One turn of the channel loop at line `pos`. The checked indexing
   * throws `out_of_range`; a skip that leaves the list of lines is
   * undefined in the source, and `fixed` rejects it as a trace that ends
   * too early.
   */
  function ChannelStep(ctx: Context, traces: seq<string>, sel: Selection, ch: nat, pos: nat,
                       toDouble: string -> Result<real, NumError>, point: PointFn, fixed: bool): (r: Step)
    requires pos <= |traces|
    ensures (r.Skip? || r.Emit?) ==> r.next <= |traces| && ch < |ctx.nDatapoints| && ch < |ctx.yAxisTitles| && ch < |sel|
    ensures r.Skip? ==> !IsSelected(ctx, sel, ch) && r.next == pos + ctx.nDatapoints[ch]
    ensures r.Emit? ==> IsSelected(ctx, sel, ch) && SignalFor(ctx, r.signal, ch)
  {
    if ch >= |ctx.nDatapoints| || ch >= |ctx.yAxisTitles| || ch >= |sel| then Stop(Failed(Std(OUT_OF_RANGE_MSG)))
    else
      var n := ctx.nDatapoints[ch];
      if !IsSelected(ctx, sel, ch) then
        if pos + n < 0 || pos + n > |traces| then
          Stop(if fixed then Failed(AscFormat(END_OF_TRACE_MSG)) else Undefined)
        else Skip(pos + n)
      else if ch >= |ctx.samplingRates| || ch >= |ctx.xAxisMultipliers| || ch >= |ctx.yAxisMultipliers| then
        Stop(Failed(Std(OUT_OF_RANGE_MSG)))
      else if n < 0 then Stop(Failed(Std(RESERVE_MSG)))
      else
        var sc := Scaling(ctx.samplingRates[ch], ctx.xAxisMultipliers[ch], ctx.yAxisMultipliers[ch]);
        match ChannelRun(traces, pos, 0, n, [], sc, toDouble, point, fixed)
        case RunUndefined => Stop(Undefined)
        case RunFailed(e) => Stop(Failed(e))
        case Ran(points, next) =>
          if ch >= |ctx.xAxisTitles| then Stop(Failed(Std(OUT_OF_RANGE_MSG)))
          else Emit(ChannelData(ctx, ch, points), next)
  }

  /** The channel loop from channel `ch` at line `pos`, with the signals `acc` produced so far. */
  function TracesFrom(ctx: Context, traces: seq<string>, sel: Selection, ch: nat, pos: nat, acc: seq<Plugin.Data>,
                      toDouble: string -> Result<real, NumError>, point: PointFn, fixed: bool): Outcome
    requires pos <= |traces|
    decreases ctx.nChans - ch
  {
    if ch >= ctx.nChans then Parsed(acc, pos != |traces|)
    else match ChannelStep(ctx, traces, sel, ch, pos, toDouble, point, fixed)
      case Stop(o) => o
      case Skip(next) => TracesFrom(ctx, traces, sel, ch + 1, next, acc, toDouble, point, fixed)
      case Emit(d, next) => TracesFrom(ctx, traces, sel, ch + 1, next, acc + [d], toDouble, point, fixed)
  }

  /** `parseTraces` as written, appending to `data`. */
  function TracesAsWritten(data: seq<Plugin.Data>, ctx: Context, traces: seq<string>, sel: Selection,
                           toDouble: string -> Result<real, NumError>, point: PointFn): Outcome
  {
    TracesFrom(ctx, traces, sel, 0, 0, data, toDouble, point, false)
  }

  /** `parseTraces` with running past the last line rejected. */
  function TracesParsed(data: seq<Plugin.Data>, ctx: Context, traces: seq<string>, sel: Selection,
                        toDouble: string -> Result<real, NumError>, point: PointFn): Outcome
  {
    TracesFrom(ctx, traces, sel, 0, 0, data, toDouble, point, true)
  }

  // ------------------------------------------------------------ the loops

  /** The points loop of one selected channel, starting at line `pos`. */
  method ReadChannel(traces: seq<string>, pos: nat, n: nat, sc: Scaling,
                     toDouble: string -> Result<real, NumError>, point: PointFn) returns (r: Run)
    requires pos <= |traces|
    ensures r == ChannelRun(traces, pos, 0, n, [], sc, toDouble, point, true)
  {
    var it: nat := pos;
    var points: seq<(real, real)> := [];
    var pt := 0;
    while pt < n
      invariant pt <= n && it <= |traces|
      invariant ChannelRun(traces, pos, 0, n, [], sc, toDouble, point, true)
        == ChannelRun(traces, it, pt, n, points, sc, toDouble, point, true)
    {
      if it == |traces| {
        return RunFailed(AscFormat(END_OF_TRACE_MSG));
      }
      var v;
      match DoubleOf(traces[it], toDouble) {
        case Err(e) => return RunFailed(e);
        case Ok(x) => v := x;
      }
      points := points + [point(sc, pt, v)];
      it := it + 1;
      if it == |traces| && pt != n - 1 {
        return RunFailed(AscFormat(END_OF_TRACE_MSG));
      }
      pt := pt + 1;
    }
    return Ran(points, it);
  }

  /** One turn of `parseTraces`' channel loop, at line `pos`. */
  method ChannelTurn(ctx: Context, traces: seq<string>, sel: Selection, ch: nat, pos: nat,
                     toDouble: string -> Result<real, NumError>, point: PointFn) returns (s: Step)
    requires pos <= |traces|
    ensures s == ChannelStep(ctx, traces, sel, ch, pos, toDouble, point, true)
  {
    if ch >= |ctx.nDatapoints| || ch >= |ctx.yAxisTitles| || ch >= |sel| {
      return Stop(Failed(Std(OUT_OF_RANGE_MSG)));
    }
    var n := ctx.nDatapoints[ch];
    if !(ctx.yAxisTitles[ch] == sel[ch].0 && sel[ch].1) {
      if pos + n < 0 || pos + n > |traces| {
        return Stop(Failed(AscFormat(END_OF_TRACE_MSG)));
      }
      return Skip(pos + n);
    }
    if ch >= |ctx.samplingRates| || ch >= |ctx.xAxisMultipliers| || ch >= |ctx.yAxisMultipliers| {
      return Stop(Failed(Std(OUT_OF_RANGE_MSG)));
    }
    if n < 0 {
      return Stop(Failed(Std(RESERVE_MSG)));
    }
    var sc := Scaling(ctx.samplingRates[ch], ctx.xAxisMultipliers[ch], ctx.yAxisMultipliers[ch]);
    var run := ReadChannel(traces, pos, n, sc, toDouble, point);
    match run {
      case RunFailed(e) => return Stop(Failed(e));
      case Ran(points, next) =>
        if ch >= |ctx.xAxisTitles| {
          return Stop(Failed(Std(OUT_OF_RANGE_MSG)));
        }
        return Emit(ChannelData(ctx, ch, points), next);
    }
  }

  /**
   * `parseTraces`: walk the channels with one position in the list of
   * lines, skipping or reading each channel's lines, and report whether
   * lines were left over.
   */
  method ParseTraces(data: seq<Plugin.Data>, ctx: Context, traces: seq<string>, sel: Selection,
                     toDouble: string -> Result<real, NumError>, point: PointFn) returns (r: Outcome)
    ensures r == TracesParsed(data, ctx, traces, sel, toDouble, point)
  {
    var out := data;
    var it: nat := 0;
    for ch := 0 to ctx.nChans
      invariant it <= |traces|
      invariant TracesParsed(data, ctx, traces, sel, toDouble, point)
        == TracesFrom(ctx, traces, sel, ch, it, out, toDouble, point, true)
    {
      var step := ChannelTurn(ctx, traces, sel, ch, it, toDouble, point);
      match step {
        case Stop(o) => return o;
        case Skip(next) => it := next;
        case Emit(d, next) =>
          out := out + [d];
          it := next;
      }
    }
    return Parsed(out, it != |traces|);
  }

  // ------------------------------------------------------------ properties

  /**
   * A selected channel's points are its next lines in order, each read as
   * a number and scaled with its index; none is skipped or added.
   */
  lemma {:induction false} RunPoints(traces: seq<string>, pos: nat, pt: nat, n: nat, acc: seq<(real, real)>, sc: Scaling,
                                     toDouble: string -> Result<real, NumError>, point: PointFn, fixed: bool)
    requires pos <= |traces| && pt <= n
    requires ChannelRun(traces, pos, pt, n, acc, sc, toDouble, point, fixed).Ran?
    ensures var ps := ChannelRun(traces, pos, pt, n, acc, sc, toDouble, point, fixed).points;
      ps[..|acc|] == acc
      && forall j :: pos <= j < pos + (n - pt) ==>
           DoubleOf(traces[j], toDouble).Ok?
           && ps[|acc| + (j - pos)] == point(sc, pt + (j - pos), DoubleOf(traces[j], toDouble).value)
    decreases n - pt
  {
    if pt < n {
      var v := DoubleOf(traces[pos], toDouble).value;
      var acc' := acc + [point(sc, pt, v)];
      assert ChannelRun(traces, pos, pt, n, acc, sc, toDouble, point, fixed)
        == ChannelRun(traces, pos + 1, pt + 1, n, acc', sc, toDouble, point, fixed);
      RunPoints(traces, pos + 1, pt + 1, n, acc', sc, toDouble, point, fixed);
      var ps := ChannelRun(traces, pos, pt, n, acc, sc, toDouble, point, fixed).points;
      assert ps[..|acc'|] == acc';
      assert ps[..|acc|] == acc'[..|acc|];
    }
  }

  /**
   * A selected channel with fewer lines left than points to read is
   * rejected: for a line that is not a number, or else with "Unexpected
   * end of data trace".
   */
  lemma {:induction false} ShortTraceRejected(traces: seq<string>, pos: nat, pt: nat, n: nat, acc: seq<(real, real)>,
                                              sc: Scaling, toDouble: string -> Result<real, NumError>, point: PointFn)
    requires pos <= |traces| && pt < n && pos + (n - pt) > |traces|
    ensures ChannelRun(traces, pos, pt, n, acc, sc, toDouble, point, true).RunFailed?
    ensures (forall k :: pos <= k < |traces| ==> DoubleOf(traces[k], toDouble).Ok?) ==>
      ChannelRun(traces, pos, pt, n, acc, sc, toDouble, point, true) == RunFailed(AscFormat(END_OF_TRACE_MSG))
    decreases n - pt
  {
    if pos < |traces| && DoubleOf(traces[pos], toDouble).Ok? && !(pos + 1 == |traces| && pt != n - 1) {
      var v := DoubleOf(traces[pos], toDouble).value;
      ShortTraceRejected(traces, pos + 1, pt + 1, n, acc + [point(sc, pt, v)], sc, toDouble, point);
    }
  }

  /** Wherever the points loop as written is defined, the corrected one does the same. */
  lemma {:induction false} RunAgree(traces: seq<string>, pos: nat, pt: nat, n: nat, acc: seq<(real, real)>, sc: Scaling,
                                    toDouble: string -> Result<real, NumError>, point: PointFn)
    requires pos <= |traces| && pt <= n
    requires !ChannelRun(traces, pos, pt, n, acc, sc, toDouble, point, false).RunUndefined?
    ensures ChannelRun(traces, pos, pt, n, acc, sc, toDouble, point, false)
      == ChannelRun(traces, pos, pt, n, acc, sc, toDouble, point, true)
    decreases n - pt
  {
    if pt < n && pos < |traces| && DoubleOf(traces[pos], toDouble).Ok? && !(pos + 1 == |traces| && pt != n - 1) {
      var v := DoubleOf(traces[pos], toDouble).value;
      RunAgree(traces, pos + 1, pt + 1, n, acc + [point(sc, pt, v)], sc, toDouble, point);
    }
  }

  /** Wherever `parseTraces` as written is defined, the corrected one does the same. */
  lemma {:induction false} TracesAgree(ctx: Context, traces: seq<string>, sel: Selection, ch: nat, pos: nat,
                                       acc: seq<Plugin.Data>, toDouble: string -> Result<real, NumError>, point: PointFn)
    requires pos <= |traces|
    requires TracesFrom(ctx, traces, sel, ch, pos, acc, toDouble, point, false) != Undefined
    ensures TracesFrom(ctx, traces, sel, ch, pos, acc, toDouble, point, false)
      == TracesFrom(ctx, traces, sel, ch, pos, acc, toDouble, point, true)
    decreases ctx.nChans - ch
  {
    if ch < ctx.nChans {
      var step := ChannelStep(ctx, traces, sel, ch, pos, toDouble, point, false);
      assert step == ChannelStep(ctx, traces, sel, ch, pos, toDouble, point, true) by {
        StepAgree(ctx, traces, sel, ch, pos, toDouble, point);
      }
      match step {
        case Stop(o) =>
        case Skip(next) => TracesAgree(ctx, traces, sel, ch + 1, next, acc, toDouble, point);
        case Emit(d, next) => TracesAgree(ctx, traces, sel, ch + 1, next, acc + [d], toDouble, point);
      }
    }
  }

  lemma StepAgree(ctx: Context, traces: seq<string>, sel: Selection, ch: nat, pos: nat,
                  toDouble: string -> Result<real, NumError>, point: PointFn)
    requires pos <= |traces|
    requires ChannelStep(ctx, traces, sel, ch, pos, toDouble, point, false) != Stop(Undefined)
    ensures ChannelStep(ctx, traces, sel, ch, pos, toDouble, point, false)
      == ChannelStep(ctx, traces, sel, ch, pos, toDouble, point, true)
  {
    if ch < |ctx.nDatapoints| && ch < |ctx.yAxisTitles| && ch < |sel| && IsSelected(ctx, sel, ch)
       && ch < |ctx.samplingRates| && ch < |ctx.xAxisMultipliers| && ch < |ctx.yAxisMultipliers|
       && ctx.nDatapoints[ch] >= 0 {
      var sc := Scaling(ctx.samplingRates[ch], ctx.xAxisMultipliers[ch], ctx.yAxisMultipliers[ch]);
      if !ChannelRun(traces, pos, 0, ctx.nDatapoints[ch], [], sc, toDouble, point, false).RunUndefined? {
        RunAgree(traces, pos, 0, ctx.nDatapoints[ch], [], sc, toDouble, point);
      }
    }
  }

  /**
   * The source's undefined case: a selected channel with points to read
   * when every line has been used. With no lines at all and a first
   * channel that is selected and has points, the loop as written
   * dereferences the end of the list; the corrected loop reports the
   * trace as ending too early.
   */
  lemma TraceEndUndefined(data: seq<Plugin.Data>, ctx: Context, sel: Selection,
                          toDouble: string -> Result<real, NumError>, point: PointFn)
    requires ctx.nChans >= 1 && |ctx.nDatapoints| >= 1 && ctx.nDatapoints[0] >= 1
    requires |ctx.yAxisTitles| >= 1 && |sel| >= 1 && IsSelected(ctx, sel, 0)
    requires |ctx.samplingRates| >= 1 && |ctx.xAxisMultipliers| >= 1 && |ctx.yAxisMultipliers| >= 1
    ensures TracesAsWritten(data, ctx, [], sel, toDouble, point) == Undefined
    ensures TracesParsed(data, ctx, [], sel, toDouble, point) == Failed(AscFormat(END_OF_TRACE_MSG))
  {
  }

  /** One channel's turn of the loop, followed by the rest. */
  lemma TracesFromNext(ctx: Context, traces: seq<string>, sel: Selection, ch: nat, pos: nat, acc: seq<Plugin.Data>,
                       toDouble: string -> Result<real, NumError>, point: PointFn, fixed: bool)
    requires pos <= |traces| && ch < ctx.nChans
    ensures var step := ChannelStep(ctx, traces, sel, ch, pos, toDouble, point, fixed);
      (step.Skip? ==>
         TracesFrom(ctx, traces, sel, ch, pos, acc, toDouble, point, fixed)
         == TracesFrom(ctx, traces, sel, ch + 1, step.next, acc, toDouble, point, fixed))
      && (step.Emit? ==>
            TracesFrom(ctx, traces, sel, ch, pos, acc, toDouble, point, fixed)
            == TracesFrom(ctx, traces, sel, ch + 1, step.next, acc + [step.signal], toDouble, point, fixed))
      && (step.Stop? ==> TracesFrom(ctx, traces, sel, ch, pos, acc, toDouble, point, fixed) == step.outcome)
  {
  }

  /** The channels after `ch` that are selected, in order. */
  function SelectedFrom(ctx: Context, sel: Selection, ch: nat): seq<nat>
    decreases ctx.nChans - ch
  {
    if ch >= ctx.nChans then []
    else if ch < |ctx.yAxisTitles| && ch < |sel| && IsSelected(ctx, sel, ch) then [ch] + SelectedFrom(ctx, sel, ch + 1)
    else SelectedFrom(ctx, sel, ch + 1)
  }

  /** The sum of point counts. */
  function PointsTotal(counts: seq<int>): int
  {
    if |counts| == 0 then 0 else counts[0] + PointsTotal(counts[1..])
  }

  /** The signals `ds` are those of the channels `chans`, one each, in order. */
  predicate SignalsFor(ctx: Context, ds: seq<Plugin.Data>, chans: seq<nat>)
  {
    |ds| == |chans| && forall j :: 0 <= j < |ds| ==> SignalFor(ctx, ds[j], chans[j])
  }

  /** A relation that holds pairwise along two sequences still holds after a related pair is put in front. */
  lemma PairwiseCons<A, B>(p: (A, B) -> bool, x: A, y: B, xs: seq<A>, ys: seq<B>)
    requires p(x, y) && |xs| == |ys| && forall j :: 0 <= j < |xs| ==> p(xs[j], ys[j])
    ensures forall j :: 0 <= j < |xs| + 1 ==> p(([x] + xs)[j], ([y] + ys)[j])
  {
    forall j | 0 <= j < |xs| + 1 ensures p(([x] + xs)[j], ([y] + ys)[j]) {
      if j > 0 {
        assert ([x] + xs)[j] == xs[j - 1] && ([y] + ys)[j] == ys[j - 1];
      }
    }
  }

  lemma SignalsCons(ctx: Context, d: Plugin.Data, ch: nat, ds: seq<Plugin.Data>, chans: seq<nat>)
    requires SignalFor(ctx, d, ch) && SignalsFor(ctx, ds, chans)
    ensures SignalsFor(ctx, [d] + ds, [ch] + chans)
  {
    var p := (x: Plugin.Data, c: nat) => SignalFor(ctx, x, c);
    PairwiseCons(p, d, ch, ds, chans);
  }

  /** Signals gathered after `acc + [d]` are, after `acc`, those of channel `ch` and then the rest. */
  lemma SignalsAfter(ctx: Context, acc: seq<Plugin.Data>, d: Plugin.Data, ch: nat,
                     out: seq<Plugin.Data>, rest: seq<nat>)
    requires |out| >= |acc| + 1 && out[..|acc| + 1] == acc + [d]
    requires SignalFor(ctx, d, ch) && SignalsFor(ctx, out[|acc| + 1..], rest)
    ensures out[..|acc|] == acc && SignalsFor(ctx, out[|acc|..], [ch] + rest)
  {
    assert out[..|acc|] == out[..|acc| + 1][..|acc|];
    assert out[|acc|..] == [d] + out[|acc| + 1..];
    SignalsCons(ctx, d, ch, out[|acc| + 1..], rest);
  }

  /**
   * A successful read yields one signal per selected channel, in channel
   * order, after those already there; each is named "Channel <index>" and
   * carries that channel's units, and the file's name and path.
   */
  lemma {:induction false} ParsedSignals(ctx: Context, traces: seq<string>, sel: Selection, ch: nat, pos: nat,
                                         acc: seq<Plugin.Data>, toDouble: string -> Result<real, NumError>,
                                         point: PointFn, fixed: bool)
    requires pos <= |traces|
    requires TracesFrom(ctx, traces, sel, ch, pos, acc, toDouble, point, fixed).Parsed?
    ensures var out := TracesFrom(ctx, traces, sel, ch, pos, acc, toDouble, point, fixed).data;
      |out| >= |acc| && out[..|acc|] == acc && SignalsFor(ctx, out[|acc|..], SelectedFrom(ctx, sel, ch))
    decreases ctx.nChans - ch
  {
    if ch < ctx.nChans {
      TracesFromNext(ctx, traces, sel, ch, pos, acc, toDouble, point, fixed);
      var step := ChannelStep(ctx, traces, sel, ch, pos, toDouble, point, fixed);
      if step.Skip? {
        ParsedSignals(ctx, traces, sel, ch + 1, step.next, acc, toDouble, point, fixed);
      } else if step.Emit? {
        var d := step.signal;
        ParsedSignals(ctx, traces, sel, ch + 1, step.next, acc + [d], toDouble, point, fixed);
        var out := TracesFrom(ctx, traces, sel, ch + 1, step.next, acc + [d], toDouble, point, fixed).data;
        SignalsAfter(ctx, acc, d, ch, out, SelectedFrom(ctx, sel, ch + 1));
      }
    }
  }

  /**
   * A successful read moves through the lines by exactly the channels'
   * point counts, a skipped channel included; the counts never take it
   * past the last line, and lines are left over exactly when they fall
   * short of it.
   */
  lemma {:induction false} ParsedConsumes(ctx: Context, traces: seq<string>, sel: Selection, ch: nat, pos: nat,
                                          acc: seq<Plugin.Data>, toDouble: string -> Result<real, NumError>,
                                          point: PointFn, fixed: bool)
    requires pos <= |traces| && ch <= ctx.nChans
    requires TracesFrom(ctx, traces, sel, ch, pos, acc, toDouble, point, fixed).Parsed?
    ensures ctx.nChans == ch || ctx.nChans <= |ctx.nDatapoints|
    ensures ctx.nChans <= |ctx.nDatapoints| ==>
      var total := pos + PointsTotal(ctx.nDatapoints[ch..ctx.nChans]);
      total <= |traces|
      && (TracesFrom(ctx, traces, sel, ch, pos, acc, toDouble, point, fixed).longer <==> total < |traces|)
    decreases ctx.nChans - ch
  {
    if ch < ctx.nChans {
      TracesFromNext(ctx, traces, sel, ch, pos, acc, toDouble, point, fixed);
      match ChannelStep(ctx, traces, sel, ch, pos, toDouble, point, fixed) {
        case Skip(next) =>
          ParsedConsumes(ctx, traces, sel, ch + 1, next, acc, toDouble, point, fixed);
          if ctx.nChans <= |ctx.nDatapoints| {
            assert ctx.nDatapoints[ch..ctx.nChans][1..] == ctx.nDatapoints[ch + 1..ctx.nChans];
          }
        case Emit(d, next) =>
          ParsedConsumes(ctx, traces, sel, ch + 1, next, acc + [d], toDouble, point, fixed);
          if ctx.nChans <= |ctx.nDatapoints| {
            assert ctx.nDatapoints[ch..ctx.nChans][1..] == ctx.nDatapoints[ch + 1..ctx.nChans];
          }
      }
    }
  }
}
