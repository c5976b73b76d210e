/**
 * `iter_paths` of `scripts/pt_summary_from_rpt.py`: a line-by-line scanner
 * over a PrimeTime `report_timing` text that yields one path record per
 * "Startpoint:" block that carries a slack.
 *
 * The step function `Step` is the body of the scanner's loop for one line;
 * `Scan` runs it over all lines; the method `IterPaths` is the scanner's
 * own loop and is proved to compute `Scan`. The theorem `ScanIsBlockByBlock`
 * recasts `Scan` as one record per block, and the lemmas after it give the
 * fields of each record.
 */
module PtScanner {
  import opened Text
  import opened PtPatterns
  import opened Collections

  /** PathRec: one timing path as read from the report. */
  datatype PathRec = PathRec(
    startInst: string,
    endInst: string,
    startClk: string,
    endClk: string,
    pathGroup: string,
    startClkDelay: Option<real>,
    endClkDelay: Option<real>,
    slack: Option<real>,
    stageCount: Option<nat>,
    startPin: Option<string>,
    endPin: Option<string>)
  {
    /** PathRec.skew: capture minus launch clock-network delay, when both are known. */
    function Skew(): (r: Option<real>)
      ensures r.Some? <==> startClkDelay.Some? && endClkDelay.Some?
      ensures r.Some? ==> startClkDelay.value + r.value == endClkDelay.value
    {
      if startClkDelay.None? || endClkDelay.None? then None
      else Some(endClkDelay.value - startClkDelay.value)
    }
  }

  /** The record a "Startpoint:" line opens. */
  function Opened(inst: string, clk: string): PathRec
  {
    PathRec(inst, "", clk, "", "*", None, None, None, None, Some(inst + "/CP"), None)
  }

  /** The scanner's local variables between two lines. */
  datatype ScanState = ScanState(
    cur: Option<PathRec>,
    inPointTable: bool,
    seenDataArrival: bool,
    outputStageCount: nat,
    lastDataPin: Option<string>)

  const Idle := ScanState(None, false, false, 0, None)

  /** The state right after a "Startpoint:" line. */
  function Fresh(inst: string, clk: string): ScanState
  {
    ScanState(Some(Opened(inst, clk)), false, false, 0, None)
  }

  /** The line as the scanner sees it: without its trailing newlines. */
  function Chomp(raw: string): string
  {
    RStripChar(raw, '\n')
  }

  /**
   * What the scanner's patterns say about one line. The scanner consults
   * them in a fixed order and stops at the first that applies; gathering
   * them up front changes nothing, as matching has no side effects.
   */
  datatype LineInfo = LineInfo(
    startpoint: Option<(string, string)>,
    endpoint: Option<(string, string)>,
    pathGroup: Option<string>,
    pointHeader: bool,
    dataArrival: bool,
    clockNetworkDelay: bool,
    firstFloat: Option<real>,
    pin: Option<string>,
    net: bool,
    stageMark: bool,
    outputPin: bool,
    dataPin: bool,
    slackLine: bool,
    slackValue: Option<real>)

  /** Classify a line of the report (its trailing newlines already removed). */
  function Classify(line: string): (info: LineInfo)
    ensures info.outputPin ==> info.pin.Some?
    ensures info.dataPin ==> info.pin.Some?
  {
    var pin := PointPin(line);
    LineInfo(
      StartpointMatch(line), EndpointMatch(line), PathGroupName(line),
      IsPointHeader(line), IsDataArrival(line), IsClockNetworkDelay(line), ParseFirstFloat(line),
      pin, Contains(line, "(net)"), '&' in line,
      pin.Some? && IsOutputPin(pin.value), pin.Some? && IsDataPin(pin.value),
      IsSlackLine(line), ParseSlackValue(line))
  }

  predicate IsStart(info: LineInfo)
  {
    info.startpoint.Some?
  }

  /** The current record with its stage count and end pin settled. */
  function Completed(st: ScanState): (p: PathRec)
    requires st.cur.Some?
    ensures p.stageCount.None? <==> st.outputStageCount == 0
    ensures p.stageCount.Some? ==> p.stageCount.value == st.outputStageCount
    ensures p.endPin == if st.lastDataPin.Some? && st.lastDataPin.value != "" then st.lastDataPin else st.cur.value.endPin
    ensures p.(stageCount := st.cur.value.stageCount, endPin := st.cur.value.endPin) == st.cur.value
  {
    st.cur.value.(
      stageCount := if st.outputStageCount != 0 then Some(st.outputStageCount) else None,
      endPin := if st.lastDataPin.Some? && st.lastDataPin.value != "" then st.lastDataPin else st.cur.value.endPin)
  }

  /** What ending the current block yields: its record, if it reached a slack. */
  function Flush(st: ScanState): (out: seq<PathRec>)
    ensures |out| <= 1
    ensures out != [] <==> st.cur.Some? && st.cur.value.slack.Some?
  {
    if st.cur.Some? && st.cur.value.slack.Some? then [Completed(st)] else []
  }

  /** After the point table: the capture clock delay, then the slack line. */
  function AfterTable(st: ScanState, cur: PathRec, info: LineInfo): ScanState
  {
    if st.seenDataArrival && cur.endClkDelay.None? && info.clockNetworkDelay then
      st.(cur := Some(cur.(endClkDelay := info.firstFloat)))
    else if info.slackLine then
      st.(cur := Some(cur.(slack := info.slackValue)))
    else st
  }

  /** A row of the point table naming a pin: stage count and last data pin. */
  function PinRow(st: ScanState, info: LineInfo): ScanState
  {
    st.(
      outputStageCount := if info.outputPin && info.stageMark then st.outputStageCount + 1 else st.outputStageCount,
      lastDataPin := if info.dataPin then info.pin else st.lastDataPin)
  }

  /** One line inside a block (after its "Startpoint:"). */
  function InBlock(st: ScanState, cur: PathRec, info: LineInfo): ScanState
  {
    match info.endpoint
    case Some(ep) => st.(cur := Some(cur.(endInst := ep.0, endClk := ep.1)))
    case None =>
      match info.pathGroup
      case Some(g) => st.(cur := Some(cur.(pathGroup := g)))
      case None =>
        if info.pointHeader then st.(inPointTable := true)
        else if st.inPointTable then TableRow(st, cur, info)
        else AfterTable(st, cur, info)
  }

  /** A line of the point table that is not a header, endpoint or path group line. */
  function TableRow(st: ScanState, cur: PathRec, info: LineInfo): ScanState
  {
    if info.dataArrival then
      st.(inPointTable := false, seenDataArrival := true,
          cur := Some(if cur.endPin.None? && cur.endInst != "" then cur.(endPin := Some(cur.endInst + "/D")) else cur))
    else if cur.startClkDelay.None? && info.clockNetworkDelay then
      st.(cur := Some(cur.(startClkDelay := info.firstFloat)))
    else if info.pin.None? || info.net then st
    else AfterTable(PinRow(st, info), cur, info)
  }

  /** The scanner's loop body for one line: the new state and what it yields. */
  function Step(st: ScanState, info: LineInfo): (ScanState, seq<PathRec>)
  {
    match info.startpoint
    case Some(sp) => (Fresh(sp.0, sp.1), Flush(st))
    case None =>
      if st.cur.None? then (st, [])
      else (InBlock(st, st.cur.value, info), [])
  }

  /** The records yielded from state st over the remaining classified lines, the final flush included. */
  function Run(st: ScanState, infos: seq<LineInfo>): seq<PathRec>
    decreases |infos|
  {
    if infos == [] then Flush(st)
    else
      var next := Step(st, infos[0]);
      next.1 + Run(next.0, infos[1..])
  }

  /** The same over raw lines. */
  function RunLines(st: ScanState, lines: seq<string>): seq<PathRec>
    decreases |lines|
  {
    if lines == [] then Flush(st)
    else
      var next := Step(st, Classify(Chomp(lines[0])));
      next.1 + RunLines(next.0, lines[1..])
  }

  /** The classification of every line of a report. */
  function Classified(lines: seq<string>): (infos: seq<LineInfo>)
    ensures |infos| == |lines|
  {
    if lines == [] then [] else [Classify(Chomp(lines[0]))] + Classified(lines[1..])
  }

  lemma {:induction false} RunLinesClassified(st: ScanState, lines: seq<string>)
    ensures RunLines(st, lines) == Run(st, Classified(lines))
    decreases |lines|
  {
    if lines != [] {
      RunLinesClassified(Step(st, Classify(Chomp(lines[0]))).0, lines[1..]);
    }
  }

  /** iter_paths: the records of a whole report. */
  function Scan(lines: seq<string>): seq<PathRec>
  {
    RunLines(Idle, lines)
  }

  /** iter_paths, as the scanner's loop over the report's lines. */
  method IterPaths(lines: seq<string>) returns (paths: seq<PathRec>)
    ensures paths == Scan(lines)
  {
    var st := Idle;
    paths := [];
    var i := 0;
    while i < |lines|
      invariant i <= |lines|
      invariant paths + RunLines(st, lines[i..]) == Scan(lines)
    {
      ghost var (prevSt, prevPaths) := (st, paths);
      var out;
      st, out := ScanLine(st, lines[i]);
      paths := paths + out;
      RunLinesStep(prevPaths, prevSt, lines, i, st, out);
      i := i + 1;
    }
    assert lines[i..] == [];
    if st.cur.Some? && st.cur.value.slack.Some? {
      paths := paths + [Completed(st)];
    }
  }

  /** The loop invariant survives one line. */
  lemma RunLinesStep(paths: seq<PathRec>, st: ScanState, lines: seq<string>, i: nat, next: ScanState, out: seq<PathRec>)
    requires i < |lines|
    requires (next, out) == Step(st, Classify(Chomp(lines[i])))
    ensures paths + RunLines(st, lines[i..]) == (paths + out) + RunLines(next, lines[i + 1..])
  {
    assert lines[i..][0] == lines[i] && lines[i..][1..] == lines[i + 1..];
    ConcatAssoc(paths, out, RunLines(next, lines[i + 1..]));
  }

  /**
   * One pass of the scanner's loop; each `return` is the loop's `continue`.
   * The line's patterns are all evaluated first; the branches then consult
   * them in the scanner's order.
   */
  method ScanLine(st: ScanState, raw: string) returns (next: ScanState, out: seq<PathRec>)
    ensures (next, out) == Step(st, Classify(Chomp(raw)))
  {
    var info := Classify(Chomp(raw));
    out := [];
    if info.startpoint.Some? {
      if st.cur.Some? && st.cur.value.slack.Some? {
        out := [Completed(st)];
      }
      next := ScanState(Some(Opened(info.startpoint.value.0, info.startpoint.value.1)), false, false, 0, None);
      return;
    }
    if st.cur.None? {
      next := st;
      return;
    }
    next := BlockLine(st, info);
  }

  /** A line inside a block: the part of the loop body after `if cur is None: continue`. */
  method BlockLine(st: ScanState, info: LineInfo) returns (next: ScanState)
    requires st.cur.Some?
    ensures next == InBlock(st, st.cur.value, info)
  {
    var cur := st.cur.value;
    if info.endpoint.Some? {
      next := st.(cur := Some(cur.(endInst := info.endpoint.value.0, endClk := info.endpoint.value.1)));
      return;
    }
    if info.pathGroup.Some? {
      next := st.(cur := Some(cur.(pathGroup := info.pathGroup.value)));
      return;
    }
    if info.pointHeader {
      next := st.(inPointTable := true);
      return;
    }
    next := st;
    if st.inPointTable {
      if info.dataArrival {
        next := next.(inPointTable := false, seenDataArrival := true);
        if cur.endPin.None? && cur.endInst != "" {
          next := next.(cur := Some(cur.(endPin := Some(cur.endInst + "/D"))));
        }
        return;
      }
      if cur.startClkDelay.None? && info.clockNetworkDelay {
        next := next.(cur := Some(cur.(startClkDelay := info.firstFloat)));
        return;
      }
      if info.pin.None? {
        return;
      }
      if info.net {
        return;
      }
      if info.outputPin && info.stageMark {
        next := next.(outputStageCount := next.outputStageCount + 1);
      }
      if info.dataPin {
        next := next.(lastDataPin := info.pin);
      }
    }
    if st.seenDataArrival && cur.endClkDelay.None? && info.clockNetworkDelay {
      next := next.(cur := Some(cur.(endClkDelay := info.firstFloat)));
    } else if info.slackLine {
      next := next.(cur := Some(cur.(slack := info.slackValue)));
    }
  }

  // ---------------------------------------------------------------------
  // The scan, block by block
  // ---------------------------------------------------------------------

  /** Number of lines before the next "Startpoint:" line. */
  function BlockLen(lines: seq<LineInfo>): (n: nat)
    ensures n <= |lines|
    ensures forall k :: 0 <= k < n ==> !IsStart(lines[k])
    ensures n < |lines| ==> IsStart(lines[n])
  {
    if lines == [] || IsStart(lines[0]) then 0 else 1 + BlockLen(lines[1..])
  }

  /** The state after the lines of a block body. */
  function RunBlock(st: ScanState, body: seq<LineInfo>): ScanState
    decreases |body|
  {
    if body == [] then st else RunBlock(Step(st, body[0]).0, body[1..])
  }

  /**
   * The records of a report, block by block: lines before the first
   * "Startpoint:" line are ignored, and each block (a "Startpoint:" line and
   * the lines up to the next one) yields its record when it has a slack.
   */
  function Records(lines: seq<LineInfo>): seq<PathRec>
    decreases |lines|
  {
    if lines == [] then []
    else match lines[0].startpoint
      case None => Records(lines[1..])
      case Some(sp) =>
        var n := BlockLen(lines[1..]);
        Flush(RunBlock(Fresh(sp.0, sp.1), lines[1..][..n])) + Records(lines[1..][n..])
  }

  lemma {:induction false} RunThroughBody(st: ScanState, lines: seq<LineInfo>, n: nat)
    requires n <= |lines| && forall k :: 0 <= k < n ==> !IsStart(lines[k])
    ensures Run(st, lines) == Run(RunBlock(st, lines[..n]), lines[n..])
    decreases n
  {
    if n > 0 {
      assert !IsStart(lines[0]);
      RunThroughBody(Step(st, lines[0]).0, lines[1..], n - 1);
      assert lines[1..][..n - 1] == lines[..n][1..];
      assert lines[1..][n - 1..] == lines[n..];
    }
  }

  lemma {:induction false} RunInBlock(st: ScanState, lines: seq<LineInfo>)
    ensures Run(st, lines) == Flush(RunBlock(st, lines[..BlockLen(lines)])) + Records(lines[BlockLen(lines)..])
    decreases |lines|
  {
    var n := BlockLen(lines);
    RunThroughBody(st, lines, n);
    var st' := RunBlock(st, lines[..n]);
    if n < |lines| {
      var rest := lines[n..];
      var sp := rest[0].startpoint.value;
      assert Run(st', rest) == Flush(st') + Run(Fresh(sp.0, sp.1), rest[1..]);
      RunInBlock(Fresh(sp.0, sp.1), rest[1..]);
    }
  }

  /** Without a current record, body lines change nothing. */
  lemma {:induction false} IdleBody(st: ScanState, body: seq<LineInfo>)
    requires st.cur.None? && forall k :: 0 <= k < |body| ==> !IsStart(body[k])
    ensures RunBlock(st, body) == st
    decreases |body|
  {
    if body != [] {
      assert !IsStart(body[0]);
      IdleBody(st, body[1..]);
    }
  }

  lemma {:induction false} RecordsSkipPreamble(lines: seq<LineInfo>, n: nat)
    requires n <= |lines| && forall k :: 0 <= k < n ==> !IsStart(lines[k])
    ensures Records(lines) == Records(lines[n..])
    decreases n
  {
    if n > 0 {
      assert !IsStart(lines[0]);
      RecordsSkipPreamble(lines[1..], n - 1);
      assert lines[1..][n - 1..] == lines[n..];
    }
  }

  /** iter_paths yields exactly the records of the report's blocks, in order. */
  lemma ScanIsBlockByBlock(lines: seq<string>)
    ensures Scan(lines) == Records(Classified(lines))
  {
    RunLinesClassified(Idle, lines);
    var infos := Classified(lines);
    var n := BlockLen(infos);
    RunInBlock(Idle, infos);
    IdleBody(Idle, infos[..n]);
    RecordsSkipPreamble(infos, n);
  }

  // ---------------------------------------------------------------------
  // What one line does to the current record
  // ---------------------------------------------------------------------

  /**
   * A line inside a block keeps the record's start (instance, clock, pin)
   * and never replaces a clock-network delay already read.
   */
  lemma StepKeepsStart(st: ScanState, info: LineInfo)
    requires st.cur.Some? && !IsStart(info)
    ensures Step(st, info).1 == []
    ensures Step(st, info).0.cur.Some?
    ensures var c := Step(st, info).0.cur.value;
      c.startInst == st.cur.value.startInst && c.startClk == st.cur.value.startClk
      && c.startPin == st.cur.value.startPin
      && ((st.cur.value.endPin.Some? ==> st.cur.value.endPin.value != "") ==> (c.endPin.Some? ==> c.endPin.value != ""))
      && (st.cur.value.startClkDelay.Some? ==> c.startClkDelay == st.cur.value.startClkDelay)
      && (st.cur.value.endClkDelay.Some? ==> c.endClkDelay == st.cur.value.endClkDelay)
  {
  }

  /** The same over a whole block body. */
  lemma {:induction false} BlockKeepsStart(st: ScanState, body: seq<LineInfo>)
    requires st.cur.Some? && forall k :: 0 <= k < |body| ==> !IsStart(body[k])
    ensures RunBlock(st, body).cur.Some?
    ensures var c := RunBlock(st, body).cur.value;
      c.startInst == st.cur.value.startInst && c.startClk == st.cur.value.startClk
      && c.startPin == st.cur.value.startPin
      && ((st.cur.value.endPin.Some? ==> st.cur.value.endPin.value != "") ==> (c.endPin.Some? ==> c.endPin.value != ""))
      && (st.cur.value.startClkDelay.Some? ==> c.startClkDelay == st.cur.value.startClkDelay)
      && (st.cur.value.endClkDelay.Some? ==> c.endClkDelay == st.cur.value.endClkDelay)
    decreases |body|
  {
    if body != [] {
      assert !IsStart(body[0]);
      StepKeepsStart(st, body[0]);
      BlockKeepsStart(Step(st, body[0]).0, body[1..]);
    }
  }

  /**
   * The stage count grows by at most one per line, and only on a point-table
   * row that names an output pin, is not a "(net)" row and carries '&'.
   */
  lemma StepStageCount(st: ScanState, info: LineInfo)
    requires st.cur.Some? && !IsStart(info)
    ensures var c := Step(st, info).0.outputStageCount;
      c == st.outputStageCount
      || (c == st.outputStageCount + 1 && st.inPointTable && info.pin.Some? && info.outputPin
          && info.stageMark && !info.net)
    ensures Step(st, info).0.outputStageCount == st.outputStageCount + (if StageRow(st, info) then 1 else 0)
  {
  }

  /** A data-arrival line ends the point table and falls back to "<end instance>/D" for the end pin. */
  lemma StepDataArrival(st: ScanState, info: LineInfo)
    requires st.cur.Some? && !IsStart(info) && st.inPointTable
    requires info.endpoint.None? && info.pathGroup.None? && !info.pointHeader && info.dataArrival
    ensures var next := Step(st, info).0;
      !next.inPointTable && next.seenDataArrival
      && next.cur.value.endPin == (if st.cur.value.endPin.None? && st.cur.value.endInst != ""
                                   then Some(st.cur.value.endInst + "/D") else st.cur.value.endPin)
  {
  }

  /**
   * A point-table row that reads the launch clock's network delay: not an
   * endpoint, path group, header or data-arrival line.
   */
  predicate StartDelayLine(st: ScanState, info: LineInfo)
  {
    st.cur.Some? && st.inPointTable
    && info.endpoint.None? && info.pathGroup.None? && !info.pointHeader
    && !info.dataArrival && info.clockNetworkDelay
  }

  /**
   * A clock-network-delay line after the data arrival: below the table, or a
   * table row that reaches the after-table checks (a pin row that is not a
   * "(net)" row, once the launch delay is known).
   */
  predicate EndDelayLine(st: ScanState, info: LineInfo)
  {
    st.cur.Some? && st.seenDataArrival
    && info.endpoint.None? && info.pathGroup.None? && !info.pointHeader && info.clockNetworkDelay
    && (!st.inPointTable
        || (!info.dataArrival && st.cur.value.startClkDelay.Some? && info.pin.Some? && !info.net))
  }

  /**
   * A point-table row with a pin that is not a "(net)" row and that reaches
   * the pin checks: no earlier test of the loop body took the line.
   */
  predicate TablePinRow(st: ScanState, info: LineInfo)
  {
    st.cur.Some? && st.inPointTable
    && info.endpoint.None? && info.pathGroup.None? && !info.pointHeader && !info.dataArrival
    && !(st.cur.value.startClkDelay.None? && info.clockNetworkDelay)
    && info.pin.Some? && !info.net
  }

  /** A point-table row naming a data pin, which the scanner remembers as the end pin. */
  predicate DataPinRow(st: ScanState, info: LineInfo)
  {
    TablePinRow(st, info) && info.dataPin
  }

  /** A point-table row naming an output pin on a sensitized stage ('&'): one stage. */
  predicate StageRow(st: ScanState, info: LineInfo)
  {
    TablePinRow(st, info) && info.outputPin && info.stageMark
  }

  /** The number of stage rows among the lines of a block body, each judged in the state it meets. */
  function StageRows(st: ScanState, body: seq<LineInfo>): nat
    decreases |body|
  {
    if body == [] then 0
    else (if StageRow(st, body[0]) then 1 else 0) + StageRows(Step(st, body[0]).0, body[1..])
  }

  /**
   * Over a block body the stage counter grows by the number of stage rows,
   * so a block's record counts exactly its stage rows, or has no stage
   * count when it has none.
   */
  lemma {:induction false} BlockStageCount(st: ScanState, body: seq<LineInfo>)
    requires st.cur.Some? && forall j :: 0 <= j < |body| ==> !IsStart(body[j])
    ensures RunBlock(st, body).cur.Some?
    ensures RunBlock(st, body).outputStageCount == st.outputStageCount + StageRows(st, body)
    ensures st.outputStageCount == 0 ==>
      Completed(RunBlock(st, body)).stageCount == if StageRows(st, body) == 0 then None else Some(StageRows(st, body))
    decreases |body|
  {
    BlockKeepsStart(st, body);
    if body != [] {
      assert !IsStart(body[0]);
      StepStageCount(st, body[0]);
      StepKeepsStart(st, body[0]);
      var st1 := Step(st, body[0]).0;
      assert forall j :: 0 <= j < |body[1..]| ==> !IsStart(body[1..][j]) by {
        forall j | 0 <= j < |body[1..]| ensures !IsStart(body[1..][j]) { assert body[1..][j] == body[j + 1]; }
      }
      BlockStageCount(st1, body[1..]);
    }
  }

  /** The launch clock delay is set by a table clock-delay line while it is unset, and only then. */
  lemma StepStartDelay(st: ScanState, info: LineInfo)
    requires st.cur.Some? && !IsStart(info)
    ensures Step(st, info).0.cur.Some?
    ensures Step(st, info).0.cur.value.startClkDelay ==
      if st.cur.value.startClkDelay.None? && StartDelayLine(st, info) then info.firstFloat
      else st.cur.value.startClkDelay
  {
  }

  /** The capture clock delay is set by a clock-delay line after the data arrival while it is unset, and only then. */
  lemma StepEndDelay(st: ScanState, info: LineInfo)
    requires st.cur.Some? && !IsStart(info)
    ensures Step(st, info).0.cur.Some?
    ensures Step(st, info).0.cur.value.endClkDelay ==
      if st.cur.value.endClkDelay.None? && EndDelayLine(st, info) then info.firstFloat
      else st.cur.value.endClkDelay
  {
  }

  /** The remembered data pin changes on a data-pin row of the table, to its pin, and only then. */
  lemma StepDataPin(st: ScanState, info: LineInfo)
    requires st.cur.Some? && !IsStart(info)
    ensures Step(st, info).0.lastDataPin == if DataPinRow(st, info) then info.pin else st.lastDataPin
  {
  }

  /** The state after the first j lines of a block, seen from the state after its first line. */
  lemma RunBlockPrefix(st: ScanState, body: seq<LineInfo>, j: nat)
    requires 0 < j <= |body|
    ensures RunBlock(st, body[..j]) == RunBlock(Step(st, body[0]).0, body[1..][..j - 1])
  {
    assert body[..j][0] == body[0] && body[..j][1..] == body[1..][..j - 1];
  }

  /**
   * The launch clock delay of a block is the value of its first table
   * clock-delay line whose value parses, read while the delay is unset.
   */
  lemma {:induction false} BlockStartDelay(st: ScanState, body: seq<LineInfo>, k: nat)
    requires st.cur.Some? && st.cur.value.startClkDelay.None?
    requires forall j :: 0 <= j < |body| ==> !IsStart(body[j])
    requires k < |body| && StartDelayLine(RunBlock(st, body[..k]), body[k]) && body[k].firstFloat.Some?
    requires forall j :: 0 <= j < k ==> !(StartDelayLine(RunBlock(st, body[..j]), body[j]) && body[j].firstFloat.Some?)
    ensures RunBlock(st, body).cur.Some?
    ensures RunBlock(st, body).cur.value.startClkDelay == body[k].firstFloat
    decreases k
  {
    var st1 := Step(st, body[0]).0;
    assert !IsStart(body[0]);
    StepStartDelay(st, body[0]);
    assert RunBlock(st, body) == RunBlock(st1, body[1..]);
    if k == 0 {
      assert body[..0] == [];
      BlockKeepsStart(st1, body[1..]);
    } else {
      assert body[..0] == [];
      RunBlockPrefix(st, body, k);
      forall j | 0 <= j < k - 1
        ensures !(StartDelayLine(RunBlock(st1, body[1..][..j]), body[1..][j]) && body[1..][j].firstFloat.Some?)
      {
        RunBlockPrefix(st, body, j + 1);
        assert body[1..][j] == body[j + 1];
      }
      BlockStartDelay(st1, body[1..], k - 1);
    }
  }

  /**
   * The capture clock delay of a block is the value of its first clock-delay
   * line after the data arrival whose value parses, read while the delay is unset.
   */
  lemma {:induction false} BlockEndDelay(st: ScanState, body: seq<LineInfo>, k: nat)
    requires st.cur.Some? && st.cur.value.endClkDelay.None?
    requires forall j :: 0 <= j < |body| ==> !IsStart(body[j])
    requires k < |body| && EndDelayLine(RunBlock(st, body[..k]), body[k]) && body[k].firstFloat.Some?
    requires forall j :: 0 <= j < k ==> !(EndDelayLine(RunBlock(st, body[..j]), body[j]) && body[j].firstFloat.Some?)
    ensures RunBlock(st, body).cur.Some?
    ensures RunBlock(st, body).cur.value.endClkDelay == body[k].firstFloat
    decreases k
  {
    var st1 := Step(st, body[0]).0;
    assert !IsStart(body[0]);
    StepEndDelay(st, body[0]);
    assert RunBlock(st, body) == RunBlock(st1, body[1..]);
    if k == 0 {
      assert body[..0] == [];
      BlockKeepsStart(st1, body[1..]);
    } else {
      assert body[..0] == [];
      RunBlockPrefix(st, body, k);
      forall j | 0 <= j < k - 1
        ensures !(EndDelayLine(RunBlock(st1, body[1..][..j]), body[1..][j]) && body[1..][j].firstFloat.Some?)
      {
        RunBlockPrefix(st, body, j + 1);
        assert body[1..][j] == body[j + 1];
      }
      BlockEndDelay(st1, body[1..], k - 1);
    }
  }

  /** Lines that are not data-pin rows leave the remembered data pin alone. */
  lemma {:induction false} BlockKeepsDataPin(st: ScanState, body: seq<LineInfo>)
    requires st.cur.Some? && forall j :: 0 <= j < |body| ==> !IsStart(body[j])
    requires forall j :: 0 <= j < |body| ==> !DataPinRow(RunBlock(st, body[..j]), body[j])
    ensures RunBlock(st, body).lastDataPin == st.lastDataPin
    decreases |body|
  {
    if body != [] {
      var st1 := Step(st, body[0]).0;
      assert !IsStart(body[0]);
      assert body[..0] == [];
      StepDataPin(st, body[0]);
      StepKeepsStart(st, body[0]);
      forall j | 0 <= j < |body| - 1
        ensures !DataPinRow(RunBlock(st1, body[1..][..j]), body[1..][j])
      {
        RunBlockPrefix(st, body, j + 1);
        assert body[1..][j] == body[j + 1];
      }
      BlockKeepsDataPin(st1, body[1..]);
    }
  }

  /**
   * The last data-pin row of a block's table decides the remembered data
   * pin, and so the record's end pin when that pin is not empty.
   */
  lemma {:induction false} BlockDataPin(st: ScanState, body: seq<LineInfo>, k: nat)
    requires st.cur.Some? && forall j :: 0 <= j < |body| ==> !IsStart(body[j])
    requires k < |body| && DataPinRow(RunBlock(st, body[..k]), body[k])
    requires forall j :: k < j < |body| ==> !DataPinRow(RunBlock(st, body[..j]), body[j])
    ensures RunBlock(st, body).lastDataPin == body[k].pin
    ensures RunBlock(st, body).cur.Some?
    ensures body[k].pin.value != "" ==> Completed(RunBlock(st, body)).endPin == body[k].pin
    decreases k
  {
    var st1 := Step(st, body[0]).0;
    assert !IsStart(body[0]);
    assert body[..0] == [];
    StepDataPin(st, body[0]);
    StepKeepsStart(st, body[0]);
    BlockKeepsStart(st, body);
    assert RunBlock(st, body) == RunBlock(st1, body[1..]);
    if k == 0 {
      forall j | 0 <= j < |body| - 1
        ensures !DataPinRow(RunBlock(st1, body[1..][..j]), body[1..][j])
      {
        RunBlockPrefix(st, body, j + 1);
        assert body[1..][j] == body[j + 1];
      }
      BlockKeepsDataPin(st1, body[1..]);
    } else {
      RunBlockPrefix(st, body, k);
      forall j | k - 1 < j < |body| - 1
        ensures !DataPinRow(RunBlock(st1, body[1..][..j]), body[1..][j])
      {
        RunBlockPrefix(st, body, j + 1);
        assert body[1..][j] == body[j + 1];
      }
      BlockDataPin(st1, body[1..], k - 1);
    }
  }

  // ---------------------------------------------------------------------
  // The records of a report
  // ---------------------------------------------------------------------

  /** The shape every yielded record has. */
  predicate WellFormed(p: PathRec)
  {
    p.slack.Some?
    && p.startPin == Some(p.startInst + "/CP")
    && (p.stageCount.Some? ==> p.stageCount.value >= 1)
    && (p.endPin.Some? ==> p.endPin.value != "")
  }

  /** Number of "Startpoint:" lines. */
  function CountStarts(lines: seq<LineInfo>): nat
  {
    if lines == [] then 0 else (if IsStart(lines[0]) then 1 else 0) + CountStarts(lines[1..])
  }

  lemma {:induction false} NoStartsInBody(body: seq<LineInfo>)
    requires forall k :: 0 <= k < |body| ==> !IsStart(body[k])
    ensures CountStarts(body) == 0
  {
    if body != [] {
      assert !IsStart(body[0]);
      NoStartsInBody(body[1..]);
    }
  }

  lemma {:induction false} CountStartsAppend(a: seq<LineInfo>, b: seq<LineInfo>)
    ensures CountStarts(a + b) == CountStarts(a) + CountStarts(b)
  {
    if a != [] {
      assert (a + b)[0] == a[0] && (a + b)[1..] == a[1..] + b;
      CountStartsAppend(a[1..], b);
    } else {
      assert a + b == b;
    }
  }

  /** Every record of a block is well formed and starts where its block does. */
  lemma BlockRecord(inst: string, clk: string, body: seq<LineInfo>)
    requires forall k :: 0 <= k < |body| ==> !IsStart(body[k])
    ensures forall p :: p in Flush(RunBlock(Fresh(inst, clk), body)) ==>
      WellFormed(p) && p.startInst == inst && p.startClk == clk
  {
    BlockKeepsStart(Fresh(inst, clk), body);
  }

  lemma {:induction false} RecordsWellFormed(lines: seq<LineInfo>)
    ensures forall p :: p in Records(lines) ==> WellFormed(p)
    ensures |Records(lines)| <= CountStarts(lines)
    decreases |lines|
  {
    if lines != [] {
      match lines[0].startpoint
      case None =>
        RecordsWellFormed(lines[1..]);
      case Some(sp) =>
        var tail := lines[1..];
        var n := BlockLen(tail);
        var body, rest := tail[..n], tail[n..];
        BlockStep(lines, sp);
        BlockRecord(sp.0, sp.1, body);
        RecordsWellFormed(rest);
    }
  }

  /** A block start: its record (if complete), then the records from the next start; one start is used up. */
  lemma BlockStep(lines: seq<LineInfo>, sp: (string, string))
    requires lines != [] && lines[0].startpoint == Some(sp)
    ensures var tail := lines[1..];
      var n := BlockLen(tail);
      Records(lines) == Flush(RunBlock(Fresh(sp.0, sp.1), tail[..n])) + Records(tail[n..])
      && CountStarts(lines) == 1 + CountStarts(tail[n..])
  {
    var tail := lines[1..];
    var n := BlockLen(tail);
    var body, rest := tail[..n], tail[n..];
    assert tail == body + rest;
    CountStartsAppend(body, rest);
    NoStartsInBody(body);
    assert CountStarts(lines) == 1 + CountStarts(tail);
  }

  /**
   * Every path iter_paths yields has a slack, a start pin "<instance>/CP",
   * a stage count of at least one when it has one, and a non-empty end pin
   * when it has one; there is at most one path per "Startpoint:" line.
   */
  lemma ScanWellFormed(lines: seq<string>)
    ensures forall p :: p in Scan(lines) ==> WellFormed(p)
    ensures |Scan(lines)| <= CountStarts(Classified(lines))
  {
    ScanIsBlockByBlock(lines);
    RecordsWellFormed(Classified(lines));
  }
}
