/**
 * `pt_timing_summary.py`: a `TimingStats` accumulator per path group, and
 * `parse_report`, which reads a PrimeTime timing report line by line and
 * records every path type, Startpoint and slack both in the "ALL" entry
 * and in the entry of the path group currently in force.
 */
module TimingSummary {
  import opened Text
  import opened Collections
  import PtPatterns

  // ---------------------------------------------------------------------
  // What a TimingStats holds, as a value
  // ---------------------------------------------------------------------

  /** The three fields of a `TimingStats`; `pathTypes` is its dict of counts. */
  datatype Counts = Counts(pathCount: nat, slackValues: seq<real>, pathTypes: seq<(string, nat)>)

  /** `TimingStats()`: nothing recorded yet. */
  const NoCounts := Counts(0, [], [])

  /** `d.get(k, 0)` */
  function Lookup(d: seq<(string, nat)>, k: string): nat
  {
    match KeyIndex(d, k)
    case None => 0
    case Some(i) => d[i].1
  }

  /** `d[k] = d.get(k, 0) + 1` */
  function Bump(d: seq<(string, nat)>, k: string): (r: seq<(string, nat)>)
    ensures DistinctKeys(d) ==> DistinctKeys(r)
  {
    match KeyIndex(d, k)
    case None => d + [(k, 1)]
    case Some(i) => d[i := (k, d[i].1 + 1)]
  }

  /** With distinct keys, a key is found where it sits. */
  lemma KeyIndexAt<V>(d: seq<(string, V)>, j: nat)
    requires DistinctKeys(d) && j < |d|
    ensures KeyIndex(d, d[j].0) == Some(j)
  {
    var r := KeyIndex(d, d[j].0);
    assert r.Some?;
  }

  /** Counting a key adds one to that key's count and leaves every other count alone. */
  lemma BumpLookup(d: seq<(string, nat)>, k: string, q: string)
    requires DistinctKeys(d)
    ensures Lookup(Bump(d, k), q) == Lookup(d, q) + (if q == k then 1 else 0)
  {
    var r := Bump(d, k);
    match KeyIndex(d, k)
    case None =>
      assert r[..|d|] == d;
      if q == k {
        assert KeyIndex(r, q) == Some(|d|);
      } else {
        assert KeyIndex(r, q) == KeyIndex(d, q);
      }
    case Some(i) =>
      if q == k {
        KeyIndexAt(r, i);
        KeyIndexAt(d, i);
      } else if KeyIndex(d, q).Some? {
        var j := KeyIndex(d, q).value;
        assert r[j] == d[j];
        KeyIndexAt(r, j);
      } else {
        assert forall j :: 0 <= j < |r| ==> r[j].0 == d[j].0;
        assert KeyIndex(r, q).None?;
      }
  }

  // ---------------------------------------------------------------------
  // The queries: wns, best_slack, violations, tns, resolved_path_count
  // ---------------------------------------------------------------------

  function SlackId(v: real): real
  {
    v
  }

  predicate IsNegative(v: real)
  {
    v < 0.0
  }

  /** `wns`: the least recorded slack, or None when none was recorded. */
  function Worst(vs: seq<real>): (r: Option<real>)
    ensures r.None? <==> |vs| == 0
    ensures r.Some? ==> r.value in vs && forall i :: 0 <= i < |vs| ==> r.value <= vs[i]
  {
    if |vs| == 0 then None else Some(MinReal(vs, SlackId))
  }

  /** `max` of a non-empty list of slacks. */
  function MaxSlack(vs: seq<real>): (m: real)
    requires |vs| > 0
    ensures m in vs && forall i :: 0 <= i < |vs| ==> vs[i] <= m
  {
    if |vs| == 1 then vs[0]
    else
      var m := MaxSlack(vs[1..]);
      assert forall i :: 1 <= i < |vs| ==> vs[i] == vs[1..][i - 1];
      if vs[0] >= m then vs[0] else m
  }

  /** `best_slack`: the greatest recorded slack, or None when none was recorded. */
  function Best(vs: seq<real>): (r: Option<real>)
    ensures r.None? <==> |vs| == 0
    ensures r.Some? ==> r.value in vs && forall i :: 0 <= i < |vs| ==> vs[i] <= r.value
  {
    if |vs| == 0 then None else Some(MaxSlack(vs))
  }

  /** `violations`: how many recorded slacks are strictly negative. */
  function Violations(vs: seq<real>): nat
  {
    |Filter(vs, IsNegative)|
  }

  /** `tns`: the sum of the strictly negative recorded slacks. */
  function Tns(vs: seq<real>): real
  {
    SumReal(Filter(vs, IsNegative), SlackId)
  }

  /** `resolved_path_count()`: the Startpoint count, or the slack count when there was no Startpoint. */
  function Resolved(c: Counts): (n: nat)
    ensures c.pathCount > 0 ==> n == c.pathCount
    ensures c.pathCount == 0 ==> n == |c.slackValues|
    ensures n == 0 <==> c.pathCount == 0 && |c.slackValues| == 0
  {
    if c.pathCount != 0 then c.pathCount else |c.slackValues|
  }

  /** One more slack adds to the violations and to tns exactly when it is negative; zero is neither. */
  lemma RecordSlackQueries(vs: seq<real>, v: real)
    ensures Violations(vs + [v]) == Violations(vs) + (if v < 0.0 then 1 else 0)
    ensures Tns(vs + [v]) == Tns(vs) + (if v < 0.0 then v else 0.0)
  {
    assert (vs + [v])[..|vs|] == vs;
    var f := Filter(vs, IsNegative);
    if v < 0.0 {
      assert Filter(vs + [v], IsNegative) == f + [v];
      SumRealAppend(f, [v], SlackId);
    } else {
      assert Filter(vs + [v], IsNegative) == f + [];
      assert f + [] == f;
    }
  }

  /** tns is never positive, and it is negative exactly when there is a violation. */
  lemma {:induction false} TnsSign(vs: seq<real>)
    ensures Tns(vs) <= 0.0
    ensures Violations(vs) == 0 <==> forall i :: 0 <= i < |vs| ==> vs[i] >= 0.0
    ensures Tns(vs) < 0.0 <==> Violations(vs) > 0
  {
    if |vs| > 0 {
      var init := vs[..|vs| - 1];
      var v := vs[|vs| - 1];
      assert vs == init + [v];
      TnsSign(init);
      RecordSlackQueries(init, v);
      assert forall i :: 0 <= i < |init| ==> vs[i] == init[i];
    }
  }

  /** With a violation, tns lies at or below wns. */
  lemma {:induction false} TnsBelowWns(vs: seq<real>)
    requires Violations(vs) > 0
    ensures Tns(vs) <= Worst(vs).value
  {
    var init := vs[..|vs| - 1];
    var v := vs[|vs| - 1];
    assert vs == init + [v];
    RecordSlackQueries(init, v);
    TnsSign(init);
    if |init| == 0 {
      assert Tns(vs) == v;
    } else {
      MinRealSnoc(init, v, SlackId);
      if Violations(init) > 0 {
        TnsBelowWns(init);
      } else {
        assert v < 0.0 && forall i :: 0 <= i < |init| ==> init[i] >= 0.0;
      }
    }
  }

  // ---------------------------------------------------------------------
  // The accumulator itself
  // ---------------------------------------------------------------------

  class TimingStats {
    var pathCount: nat
    var slackValues: seq<real>
    var pathTypes: seq<(string, nat)>

    /** The path-type dict has each key once. */
    ghost predicate Valid()
      reads this
    {
      DistinctKeys(pathTypes)
    }

    function Snapshot(): Counts
      reads this
    {
      Counts(pathCount, slackValues, pathTypes)
    }

    constructor()
      ensures Valid() && Snapshot() == NoCounts
    {
      pathCount := 0;
      slackValues := [];
      pathTypes := [];
    }

    /** `record_path`: one more Startpoint; nothing else changes. */
    method RecordPath()
      modifies this
      ensures pathCount == old(pathCount) + 1
      ensures slackValues == old(slackValues) && pathTypes == old(pathTypes)
    {
      pathCount := pathCount + 1;
    }

    /** `record_slack`: one more slack value at the end; nothing else changes. */
    method RecordSlack(value: real)
      modifies this
      ensures slackValues == old(slackValues) + [value]
      ensures pathCount == old(pathCount) && pathTypes == old(pathTypes)
    {
      slackValues := slackValues + [value];
    }

    /** `record_path_type`: one more path of this type; every other type's count is kept. */
    method RecordPathType(pathType: string)
      requires Valid()
      modifies this
      ensures Valid()
      ensures pathTypes == Bump(old(pathTypes), pathType)
      ensures forall q :: Lookup(pathTypes, q) == Lookup(old(pathTypes), q) + (if q == pathType then 1 else 0)
      ensures pathCount == old(pathCount) && slackValues == old(slackValues)
    {
      match KeyIndex(pathTypes, pathType) {
        case None =>
          pathTypes := pathTypes + [(pathType, 1)];
        case Some(i) =>
          pathTypes := pathTypes[i := (pathType, pathTypes[i].1 + 1)];
      }
      forall q ensures Lookup(pathTypes, q) == Lookup(old(pathTypes), q) + (if q == pathType then 1 else 0) {
        BumpLookup(old(pathTypes), pathType, q);
      }
    }

    /** The record_* call that one report event asks for. */
    method RecordEvent(e: Event)
      requires Valid()
      modifies this
      ensures Valid() && Snapshot() == Recorded(old(Snapshot()), e)
    {
      match e {
        case PathTypeSeen(t) => RecordPathType(t);
        case StartpointSeen => RecordPath();
        case SlackSeen(v) => RecordSlack(v);
        case GroupSeen(_) =>
        case NoEvent =>
      }
    }

    function Wns(): Option<real>
      reads this
    {
      Worst(slackValues)
    }

    function BestSlack(): Option<real>
      reads this
    {
      Best(slackValues)
    }

    function ViolationCount(): nat
      reads this
    {
      Violations(slackValues)
    }

    function TotalNegativeSlack(): real
      reads this
    {
      Tns(slackValues)
    }

    function ResolvedPathCount(): nat
      reads this
    {
      Resolved(Snapshot())
    }
  }

  // ---------------------------------------------------------------------
  // The line patterns
  // ---------------------------------------------------------------------

  /**
   * `group(1).strip()` of `^<head>\s*(.+)`. When only whitespace follows the
   * head, `\s*` gives characters back to `.+`, which then captures
   * whitespace only, so the stripped field is empty; a bare head (or one
   * followed by newlines only) does not match.
   */
  function FieldAfter(line: string, head: string): (r: Option<string>)
    ensures r.Some? ==> StartsWith(line, head)
    ensures r.Some? ==> r.value == [] || (!IsSpace(r.value[0]) && !IsSpace(r.value[|r.value| - 1]))
  {
    if !StartsWith(line, head) then None else FieldOf(line[|head|..])
  }

  /** `\s*(.+)` at the front of what follows the head, stripped. */
  function FieldOf(rest: string): (r: Option<string>)
    ensures r.Some? ==> r.value == [] || (!IsSpace(r.value[0]) && !IsSpace(r.value[|r.value| - 1]))
  {
    var w := SpaceRun(rest);
    if w < |rest| then Some(Strip(rest[w..w + DotRun(rest[w..])]))
    else if exists j :: 0 <= j < |rest| && rest[j] != '\n' then Some("")
    else None
  }

  /** A head, whitespace, and a field with no line break and no outer whitespace: the field is read back. */
  lemma FieldAfterReadsBack(head: string, pad: string, field: string)
    requires forall i :: 0 <= i < |pad| ==> IsSpace(pad[i])
    requires field != [] && !IsSpace(field[0]) && !IsSpace(field[|field| - 1]) && '\n' !in field
    ensures FieldAfter(head + pad + field, head) == Some(field)
  {
    var line := head + pad + field;
    assert line[..|head|] == head;
    assert line[|head|..] == pad + field;
    FieldOfReadsBack(pad, field);
  }

  lemma FieldOfReadsBack(pad: string, field: string)
    requires forall i :: 0 <= i < |pad| ==> IsSpace(pad[i])
    requires field != [] && !IsSpace(field[0]) && !IsSpace(field[|field| - 1]) && '\n' !in field
    ensures FieldOf(pad + field) == Some(field)
  {
    FieldRest(pad, field);
    StripUnchanged(field);
  }

  lemma FieldRest(pad: string, field: string)
    requires forall i :: 0 <= i < |pad| ==> IsSpace(pad[i])
    requires field != [] && !IsSpace(field[0]) && !IsSpace(field[|field| - 1]) && '\n' !in field
    ensures var rest := pad + field; var w := SpaceRun(rest);
      w < |rest| && rest[w..w + DotRun(rest[w..])] == field
  {
    SpaceRunPad(pad, field);
    assert (pad + field)[|pad|..] == field;
    DotRunAll(field);
    assert field[..|field|] == field;
  }

  lemma {:induction false} SpaceRunPad(pad: string, s: string)
    requires forall i :: 0 <= i < |pad| ==> IsSpace(pad[i])
    requires s != [] && !IsSpace(s[0])
    ensures SpaceRun(pad + s) == |pad|
  {
    if pad != [] {
      assert (pad + s)[1..] == pad[1..] + s;
      SpaceRunPad(pad[1..], s);
    } else {
      assert pad + s == s;
    }
  }

  lemma {:induction false} DotRunAll(s: string)
    requires '\n' !in s
    ensures DotRun(s) == |s|
  {
    if s != [] {
      assert s[0] in s;
      assert forall c :: c in s[1..] ==> c in s;
      DotRunAll(s[1..]);
    }
  }

  /** The length of the leading run matched by `[^-+\d]*`. */
  function Gap(s: string): (n: nat)
    ensures n <= |s|
    ensures forall i :: 0 <= i < n ==> s[i] != '-' && s[i] != '+' && !IsDigit(s[i])
    ensures n < |s| ==> s[n] == '-' || s[n] == '+' || IsDigit(s[n])
  {
    if s != [] && s[0] != '-' && s[0] != '+' && !IsDigit(s[0]) then 1 + Gap(s[1..]) else 0
  }

  /**
   * SLACK_RE matches at k: the word "slack" with a word boundary on both
   * sides, then `[^-+\d]*` (which must stop where a number starts, since
   * giving characters back cannot help), then `[-+]?\d+(\.\d+)?`.
   */
  predicate SlackAt(line: string, k: nat)
  {
    k + 5 <= |line| && line[k..k + 5] == "slack"
    && (k == 0 || !IsWordChar(line[k - 1]))
    && (k + 5 == |line| || !IsWordChar(line[k + 5]))
    && TokenStart(line[k + 5 + Gap(line[k + 5..])..])
  }

  /** `SLACK_RE.search` from position k: the leftmost match. */
  function SlackSearch(line: string, k: nat): (r: Option<nat>)
    requires k <= |line|
    ensures r.Some? ==> k <= r.value && SlackAt(line, r.value)
    ensures r.Some? ==> forall j :: k <= j < r.value ==> !SlackAt(line, j)
    ensures r.None? ==> forall j :: k <= j ==> !SlackAt(line, j)
    decreases |line| - k
  {
    if SlackAt(line, k) then Some(k)
    else if k + 5 >= |line| then None
    else SlackSearch(line, k + 1)
  }

  /** `float(SLACK_RE.search(line).group(1))`: the first number after the first matching "slack". */
  function SlackValue(line: string): (r: Option<real>)
    ensures r.None? <==> forall j :: 0 <= j ==> !SlackAt(line, j)
  {
    match SlackSearch(line, 0)
    case None => None
    case Some(k) =>
      var s := line[k + 5 + Gap(line[k + 5..])..];
      PtPatterns.TokenPrefix(s);
      Some(TokenValue(s[..TokenLen(s)]))
  }

  /** A slack line as a report writes it is read back to the number written. */
  lemma SlackValueReadsBack(gap: string, tok: string)
    requires gap != [] && !IsWordChar(gap[0])
    requires forall i :: 0 <= i < |gap| ==> gap[i] != '-' && gap[i] != '+' && !IsDigit(gap[i])
    requires IsDecimalToken(tok)
    ensures SlackValue("slack" + gap + tok) == Some(TokenValue(tok))
  {
    var line := "slack" + gap + tok;
    assert line[5..] == gap + tok;
    GapOf(gap, tok);
    assert line[5 + |gap|..] == tok;
    assert line[0..5] == "slack";
    assert SlackAt(line, 0);
    assert tok[..TokenLen(tok)] == tok;
  }

  lemma GapOf(gap: string, tok: string)
    requires forall i :: 0 <= i < |gap| ==> gap[i] != '-' && gap[i] != '+' && !IsDigit(gap[i])
    requires TokenStart(tok)
    ensures Gap(gap + tok) == |gap|
  {
    if gap != [] {
      assert (gap + tok)[1..] == gap[1..] + tok;
      GapOf(gap[1..], tok);
    } else {
      assert gap + tok == tok;
    }
  }

  // ---------------------------------------------------------------------
  // parse_report
  // ---------------------------------------------------------------------

  /** What one line of a report asks for; a line triggers at most one action. */
  datatype Event = GroupSeen(name: string) | PathTypeSeen(pathType: string) | StartpointSeen | SlackSeen(value: real) | NoEvent

  /** The tests of the loop body, in their order: Path Group, Path Type, Startpoint, slack. */
  function Classify(raw: string): Event
  {
    var line := RStripChar(raw, '\n');
    match FieldAfter(line, "Path Group:")
    case Some(g) => GroupSeen(if g == "" then "UNSPECIFIED" else g)
    case None =>
      match FieldAfter(line, "Path Type:")
      case Some(t) => PathTypeSeen(t)
      case None =>
        if StartsWith(line, "Startpoint:") then StartpointSeen
        else
          match SlackValue(line)
          case Some(v) => SlackSeen(v)
          case None => NoEvent
  }

  /** The effect of one event on one TimingStats. */
  function Recorded(c: Counts, e: Event): Counts
  {
    match e
    case PathTypeSeen(t) => c.(pathTypes := Bump(c.pathTypes, t))
    case StartpointSeen => c.(pathCount := c.pathCount + 1)
    case SlackSeen(v) => c.(slackValues := c.slackValues + [v])
    case _ => c
  }

  /** `stats.setdefault(k, TimingStats())`, for its effect on the dict. */
  function SetDefault(d: seq<(string, Counts)>, k: string): (r: seq<(string, Counts)>)
    ensures KeyIndex(r, k).Some?
    ensures r == d || r == d + [(k, NoCounts)]
  {
    if KeyIndex(d, k).Some? then d else d + [(k, NoCounts)]
  }

  /** `stats[k].record_...(...)` for a key that is present. */
  function RecordAt(d: seq<(string, Counts)>, k: string, e: Event): (r: seq<(string, Counts)>)
    requires KeyIndex(d, k).Some?
    ensures |r| == |d| && forall j :: 0 <= j < |d| ==> r[j].0 == d[j].0
  {
    var i := KeyIndex(d, k).value;
    d[i := (k, Recorded(d[i].1, e))]
  }

  /** The dict of TimingStats and the current group. */
  datatype Report = Report(stats: seq<(string, Counts)>, current: string)

  /** Keys are distinct, "ALL" comes first, and every path-type dict has distinct keys. */
  ghost predicate WellFormed(d: seq<(string, Counts)>)
  {
    |d| > 0 && d[0].0 == "ALL" && DistinctKeys(d)
    && forall j :: 0 <= j < |d| ==> DistinctKeys(d[j].1.pathTypes)
  }

  /** One pass of the loop body, for the event its line asks for. */
  function Apply(r: Report, e: Event): Report
    requires KeyIndex(r.stats, "ALL").Some?
  {
    match e
    case GroupSeen(g) => Report(SetDefault(r.stats, g), g)
    case NoEvent => r
    case _ =>
      var d := RecordAt(r.stats, "ALL", e);
      Report(RecordAt(SetDefault(d, r.current), r.current, e), r.current)
  }

  lemma RecordedKeepsTypes(c: Counts, e: Event)
    requires DistinctKeys(c.pathTypes)
    ensures DistinctKeys(Recorded(c, e).pathTypes)
  {
  }

  lemma ApplyWellFormed(r: Report, e: Event)
    requires WellFormed(r.stats)
    ensures KeyIndex(r.stats, "ALL") == Some(0)
    ensures WellFormed(Apply(r, e).stats)
  {
    KeyIndexAt(r.stats, 0);
    match e {
      case GroupSeen(g) =>
        SetDefaultWellFormed(r.stats, g);
      case NoEvent =>
      case _ =>
        RecordAtWellFormed(r.stats, "ALL", e);
        var d := RecordAt(r.stats, "ALL", e);
        SetDefaultWellFormed(d, r.current);
        RecordAtWellFormed(SetDefault(d, r.current), r.current, e);
    }
  }

  lemma SetDefaultWellFormed(d: seq<(string, Counts)>, k: string)
    requires WellFormed(d)
    ensures WellFormed(SetDefault(d, k))
  {
    assert SetDefault(d, k)[0] == d[0];
  }

  lemma RecordAtWellFormed(d: seq<(string, Counts)>, k: string, e: Event)
    requires WellFormed(d) && KeyIndex(d, k).Some?
    ensures WellFormed(RecordAt(d, k, e))
  {
    RecordedKeepsTypes(d[KeyIndex(d, k).value].1, e);
  }

  /** `parse_report` on the first lines of a report. */
  function Parse(lines: seq<string>): (r: Report)
    ensures WellFormed(r.stats)
  {
    if lines == [] then Report([("ALL", NoCounts)], "UNSPECIFIED")
    else
      var r := Parse(lines[..|lines| - 1]);
      ApplyWellFormed(r, Classify(lines[|lines| - 1]));
      Apply(r, Classify(lines[|lines| - 1]))
  }

  lemma ParseSnoc(lines: seq<string>, i: nat)
    requires i < |lines|
    ensures KeyIndex(Parse(lines[..i]).stats, "ALL").Some?
    ensures Parse(lines[..i + 1]) == Apply(Parse(lines[..i]), Classify(lines[i]))
  {
    assert lines[..i + 1][..i] == lines[..i];
    ApplyWellFormed(Parse(lines[..i]), Classify(lines[i]));
  }

  /** `parse_report(lines)` */
  function ParseReportSpec(lines: seq<string>): seq<(string, Counts)>
  {
    Parse(lines).stats
  }

  /** The objects of a dict of TimingStats. */
  function Objects(stats: seq<(string, TimingStats)>): set<TimingStats>
  {
    set j | 0 <= j < |stats| :: stats[j].1
  }

  /** A dict of distinct, valid TimingStats objects holding the keys and contents of d. */
  ghost predicate Mirrors(stats: seq<(string, TimingStats)>, d: seq<(string, Counts)>)
    reads Objects(stats)
  {
    |stats| == |d|
    && (forall j :: 0 <= j < |stats| ==> stats[j].0 == d[j].0)
    && (forall j :: 0 <= j < |stats| ==> stats[j].1.Snapshot() == d[j].1 && stats[j].1.Valid())
    && (forall j, k :: 0 <= j < k < |stats| ==> stats[j].1 != stats[k].1)
  }

  /** `stats.setdefault(key, TimingStats())` on the dict of objects. */
  method SetDefaultObject(stats: seq<(string, TimingStats)>, key: string, ghost d: seq<(string, Counts)>)
    returns (out: seq<(string, TimingStats)>)
    requires Mirrors(stats, d)
    ensures Mirrors(out, SetDefault(d, key))
    ensures out == stats || (|out| == |stats| + 1 && out[..|stats|] == stats && fresh(out[|stats|].1))
    ensures forall j :: 0 <= j < |out| ==> out[j].1 in Objects(stats) || fresh(out[j].1)
    ensures forall o :: o in Objects(out) ==> o in Objects(stats) || fresh(o)
  {
    KeyIndexSameKeys(stats, d, key);
    out := stats;
    if KeyIndex(stats, key).None? {
      var added := new TimingStats();
      out := stats + [(key, added)];
      assert out[..|stats|] == stats;
      assert forall j :: 0 <= j < |stats| ==> out[j] == stats[j];
      MirrorsSnoc(stats, d, key, added);
    }
  }

  /** A new, valid object holding no counts extends the mirror by one entry. */
  lemma MirrorsSnoc(stats: seq<(string, TimingStats)>, d: seq<(string, Counts)>, key: string, added: TimingStats)
    requires Mirrors(stats, d) && added.Valid() && added.Snapshot() == NoCounts
    requires forall j :: 0 <= j < |stats| ==> stats[j].1 != added
    ensures Mirrors(stats + [(key, added)], d + [(key, NoCounts)])
  {
    var out := stats + [(key, added)];
    var e := d + [(key, NoCounts)];
    assert forall j :: 0 <= j < |stats| ==> out[j] == stats[j] && e[j] == d[j];
  }

  /** One pass of the loop body on the dict of objects. */
  method ApplyToObjects(stats: seq<(string, TimingStats)>, current: string, e: Event, ghost r: Report)
    returns (out: seq<(string, TimingStats)>, next: string)
    requires Mirrors(stats, r.stats) && WellFormed(r.stats) && current == r.current
    modifies Objects(stats)
    ensures Mirrors(out, Apply(r, e).stats) && next == Apply(r, e).current
    ensures forall j :: 0 <= j < |out| ==> out[j].1 in Objects(stats) || fresh(out[j].1)
  {
    KeyIndexAt(r.stats, 0);
    match e {
      case GroupSeen(g) =>
        next := g;
        out := SetDefaultObject(stats, g, r.stats);
      case NoEvent =>
        out, next := stats, current;
      case _ =>
        next := current;
        out := RecordInBoth(stats, current, e, r.stats);
    }
  }

  /** The "ALL" entry and then the current group's entry record one event. */
  method RecordInBoth(stats: seq<(string, TimingStats)>, current: string, e: Event, ghost d: seq<(string, Counts)>)
    returns (out: seq<(string, TimingStats)>)
    requires Mirrors(stats, d) && KeyIndex(d, "ALL").Some?
    modifies Objects(stats)
    ensures Mirrors(out, RecordAt(SetDefault(RecordAt(d, "ALL", e), current), current, e))
    ensures forall j :: 0 <= j < |out| ==> out[j].1 in Objects(stats) || fresh(out[j].1)
  {
    RecordInObject(stats, "ALL", e, d);
    ghost var d1 := RecordAt(d, "ALL", e);
    out := SetDefaultObject(stats, current, d1);
    RecordInObject(out, current, e, SetDefault(d1, current));
  }

  /** `stats[key].record_...(...)` on the dict of objects. */
  method RecordInObject(stats: seq<(string, TimingStats)>, key: string, e: Event, ghost d: seq<(string, Counts)>)
    requires Mirrors(stats, d) && KeyIndex(d, key).Some?
    modifies Objects(stats)
    ensures Mirrors(stats, RecordAt(d, key, e))
  {
    KeyIndexSameKeys(stats, d, key);
    var i := KeyIndex(stats, key).value;
    stats[i].1.RecordEvent(e);
    assert forall j :: 0 <= j < |stats| && j != i ==> stats[j].1 != stats[i].1;
  }

  /**
   * `parse_report`: a dict of fresh, distinct TimingStats objects whose
   * keys and contents are those of the specification.
   */
  method ParseReport(lines: seq<string>) returns (stats: seq<(string, TimingStats)>)
    ensures Mirrors(stats, ParseReportSpec(lines))
    ensures forall j :: 0 <= j < |stats| ==> fresh(stats[j].1)
  {
    var all := new TimingStats();
    stats := [("ALL", all)];
    var current := "UNSPECIFIED";
    for i := 0 to |lines|
      invariant Mirrors(stats, Parse(lines[..i]).stats)
      invariant forall j :: 0 <= j < |stats| ==> fresh(stats[j].1)
      invariant current == Parse(lines[..i]).current
    {
      ghost var before := Parse(lines[..i]);
      var e := Classify(lines[i]);
      ParseSnoc(lines, i);
      stats, current := ApplyToObjects(stats, current, e, before);
    }
    assert lines[..|lines|] == lines;
  }

  // ---------------------------------------------------------------------
  // "ALL" is the sum of the groups
  // ---------------------------------------------------------------------

  function PathsOf(e: (string, Counts)): nat
  {
    e.1.pathCount
  }

  /** How often the slack v was recorded in the entries of d together. */
  function SlackCount(d: seq<(string, Counts)>, v: real): nat
  {
    if d == [] then 0 else SlackCount(d[..|d| - 1], v) + multiset(d[|d| - 1].1.slackValues)[v]
  }

  /** How many paths of type t the entries of d recorded together. */
  function TypeCount(d: seq<(string, Counts)>, t: string): nat
  {
    if d == [] then 0 else TypeCount(d[..|d| - 1], t) + Lookup(d[|d| - 1].1.pathTypes, t)
  }

  /** The "ALL" entry holds exactly what the other entries hold together. */
  ghost predicate AllIsSum(d: seq<(string, Counts)>)
    requires |d| > 0
  {
    d[0].1.pathCount == SumNat(d[1..], PathsOf)
    && (forall v :: multiset(d[0].1.slackValues)[v] == SlackCount(d[1..], v))
    && forall t :: Lookup(d[0].1.pathTypes, t) == TypeCount(d[1..], t)
  }

  /** What recording one event adds to each of the three fields. */
  lemma RecordedDelta(x: Counts, e: Event)
    requires DistinctKeys(x.pathTypes)
    ensures Recorded(x, e).pathCount == x.pathCount + (if e.StartpointSeen? then 1 else 0)
    ensures forall v :: multiset(Recorded(x, e).slackValues)[v] == multiset(x.slackValues)[v] + (if e.SlackSeen? && e.value == v then 1 else 0)
    ensures forall t :: Lookup(Recorded(x, e).pathTypes, t) == Lookup(x.pathTypes, t) + (if e.PathTypeSeen? && e.pathType == t then 1 else 0)
  {
    forall t ensures Lookup(Recorded(x, e).pathTypes, t) == Lookup(x.pathTypes, t) + (if e.PathTypeSeen? && e.pathType == t then 1 else 0) {
      if e.PathTypeSeen? {
        BumpLookup(x.pathTypes, e.pathType, t);
      }
    }
  }

  /** Replacing one entry's contents changes how often a slack was recorded by the difference. */
  lemma {:induction false} UpdateSlacks(g: seq<(string, Counts)>, j: nat, c: Counts, v: real)
    requires j < |g|
    ensures SlackCount(g[j := (g[j].0, c)], v) + multiset(g[j].1.slackValues)[v] == SlackCount(g, v) + multiset(c.slackValues)[v]
  {
    var n := |g| - 1;
    if j < n {
      assert g[j := (g[j].0, c)][..n] == g[..n][j := (g[j].0, c)];
      UpdateSlacks(g[..n], j, c, v);
    } else {
      assert g[j := (g[j].0, c)][..n] == g[..n];
    }
  }

  /** Replacing one entry's contents changes a type's count by the difference. */
  lemma {:induction false} UpdateTypes(g: seq<(string, Counts)>, j: nat, c: Counts, t: string)
    requires j < |g|
    ensures TypeCount(g[j := (g[j].0, c)], t) + Lookup(g[j].1.pathTypes, t) == TypeCount(g, t) + Lookup(c.pathTypes, t)
  {
    var n := |g| - 1;
    if j < n {
      assert g[j := (g[j].0, c)][..n] == g[..n][j := (g[j].0, c)];
      UpdateTypes(g[..n], j, c, t);
    } else {
      assert g[j := (g[j].0, c)][..n] == g[..n];
    }
  }

  /** Appending a fresh entry changes none of the totals. */
  lemma AppendNoCounts(g: seq<(string, Counts)>, k: string)
    ensures SumNat(g + [(k, NoCounts)], PathsOf) == SumNat(g, PathsOf)
    ensures forall v :: SlackCount(g + [(k, NoCounts)], v) == SlackCount(g, v)
    ensures forall t :: TypeCount(g + [(k, NoCounts)], t) == TypeCount(g, t)
  {
    SumNatAppend(g, [(k, NoCounts)], PathsOf);
    assert (g + [(k, NoCounts)])[..|g|] == g;
  }

  lemma SetDefaultTotals(d: seq<(string, Counts)>, k: string)
    requires WellFormed(d) && k != "ALL"
    ensures SetDefault(d, k)[0] == d[0]
    ensures SumNat(SetDefault(d, k)[1..], PathsOf) == SumNat(d[1..], PathsOf)
    ensures forall v :: SlackCount(SetDefault(d, k)[1..], v) == SlackCount(d[1..], v)
    ensures forall t :: TypeCount(SetDefault(d, k)[1..], t) == TypeCount(d[1..], t)
  {
    if KeyIndex(d, k).None? {
      assert SetDefault(d, k)[1..] == d[1..] + [(k, NoCounts)];
      AppendNoCounts(d[1..], k);
    }
  }

  /** Recording one event in "ALL" and in entry j of the groups keeps the path counts summed. */
  lemma PathStep(all: Counts, g: seq<(string, Counts)>, j: nat, e: Event, allNew: Counts, h: seq<(string, Counts)>)
    requires j < |g| && DistinctKeys(all.pathTypes) && DistinctKeys(g[j].1.pathTypes)
    requires allNew == Recorded(all, e) && h == g[j := (g[j].0, Recorded(g[j].1, e))]
    requires all.pathCount == SumNat(g, PathsOf)
    ensures allNew.pathCount == SumNat(h, PathsOf)
  {
    RecordedDelta(all, e);
    RecordedDelta(g[j].1, e);
    SumNatUpdate(g, j, h[j], PathsOf);
  }

  /** The same for how often one slack value was recorded. */
  lemma SlackStep(all: Counts, g: seq<(string, Counts)>, j: nat, e: Event, allNew: Counts, h: seq<(string, Counts)>, v: real)
    requires j < |g| && DistinctKeys(all.pathTypes) && DistinctKeys(g[j].1.pathTypes)
    requires allNew == Recorded(all, e) && h == g[j := (g[j].0, Recorded(g[j].1, e))]
    requires multiset(all.slackValues)[v] == SlackCount(g, v)
    ensures multiset(allNew.slackValues)[v] == SlackCount(h, v)
  {
    RecordedDelta(all, e);
    RecordedDelta(g[j].1, e);
    UpdateSlacks(g, j, Recorded(g[j].1, e), v);
  }

  /** The same for the count of one path type. */
  lemma TypeStep(all: Counts, g: seq<(string, Counts)>, j: nat, e: Event, allNew: Counts, h: seq<(string, Counts)>, t: string)
    requires j < |g| && DistinctKeys(all.pathTypes) && DistinctKeys(g[j].1.pathTypes)
    requires allNew == Recorded(all, e) && h == g[j := (g[j].0, Recorded(g[j].1, e))]
    requires Lookup(all.pathTypes, t) == TypeCount(g, t)
    ensures Lookup(allNew.pathTypes, t) == TypeCount(h, t)
  {
    RecordedDelta(all, e);
    RecordedDelta(g[j].1, e);
    UpdateTypes(g, j, Recorded(g[j].1, e), t);
  }

  /** Recording one event in "ALL" and in a group other than "ALL" keeps "ALL" the sum of the groups. */
  lemma RecordKeepsSum(d: seq<(string, Counts)>, cur: string, e: Event)
    requires WellFormed(d) && cur != "ALL" && AllIsSum(d)
    ensures KeyIndex(d, "ALL").Some?
    ensures AllIsSum(RecordAt(SetDefault(RecordAt(d, "ALL", e), cur), cur, e))
  {
    KeyIndexAt(d, 0);
    var a := RecordAt(d, "ALL", e);
    RecordAtWellFormed(d, "ALL", e);
    assert a[1..] == d[1..];
    var b := SetDefault(a, cur);
    SetDefaultWellFormed(a, cur);
    SetDefaultTotals(a, cur);
    var i := KeyIndex(b, cur).value;
    assert i >= 1;
    var c := RecordAt(b, cur, e);
    var g := b[1..];
    assert g[i - 1] == b[i];
    assert c[0].1 == Recorded(d[0].1, e);
    assert c[1..] == g[i - 1 := (g[i - 1].0, Recorded(g[i - 1].1, e))];
    PathStep(d[0].1, g, i - 1, e, c[0].1, c[1..]);
    forall v ensures multiset(c[0].1.slackValues)[v] == SlackCount(c[1..], v) {
      SlackStep(d[0].1, g, i - 1, e, c[0].1, c[1..], v);
    }
    forall t ensures Lookup(c[0].1.pathTypes, t) == TypeCount(c[1..], t) {
      TypeStep(d[0].1, g, i - 1, e, c[0].1, c[1..], t);
    }
  }

  /** A group line naming a group other than "ALL" keeps "ALL" the sum of the groups. */
  lemma GroupKeepsSum(d: seq<(string, Counts)>, g: string)
    requires WellFormed(d) && g != "ALL" && AllIsSum(d)
    ensures AllIsSum(SetDefault(d, g))
  {
    SetDefaultTotals(d, g);
  }

  /**
   * Every path type, Startpoint and slack goes both to "ALL" and to the
   * current group, so unless a group is literally named "ALL", the "ALL"
   * entry holds exactly what the other groups hold together.
   */
  lemma {:induction false} AllIsSumOfGroups(lines: seq<string>)
    requires forall i :: 0 <= i < |lines| ==> Classify(lines[i]) != GroupSeen("ALL")
    ensures Parse(lines).current != "ALL"
    ensures AllIsSum(ParseReportSpec(lines))
  {
    if lines != [] {
      var n := |lines| - 1;
      assert forall i :: 0 <= i < n ==> lines[..n][i] == lines[i];
      AllIsSumOfGroups(lines[..n]);
      var r := Parse(lines[..n]);
      var e := Classify(lines[n]);
      match e {
        case GroupSeen(g) =>
          GroupKeepsSum(r.stats, g);
        case NoEvent =>
        case _ =>
          RecordKeepsSum(r.stats, r.current, e);
      }
    } else {
      assert ParseReportSpec(lines)[1..] == [];
    }
  }

  /** While the current group is literally "ALL", every event is recorded twice in the "ALL" entry. */
  lemma AllGroupRecordedTwice(r: Report, e: Event)
    requires WellFormed(r.stats) && r.current == "ALL" && !e.GroupSeen?
    ensures KeyIndex(r.stats, "ALL").Some?
    ensures Apply(r, e).stats[0].1 == Recorded(Recorded(r.stats[0].1, e), e)
  {
    KeyIndexAt(r.stats, 0);
    if !e.NoEvent? {
      var a := RecordAt(r.stats, "ALL", e);
      assert KeyIndex(a, "ALL") == Some(0) by {
        RecordAtWellFormed(r.stats, "ALL", e);
        KeyIndexAt(a, 0);
      }
    } else {
      assert Recorded(r.stats[0].1, e) == r.stats[0].1;
    }
  }

  // ---------------------------------------------------------------------
  // Which lines are group lines
  // ---------------------------------------------------------------------

  lemma RStripCharUnchanged(s: string, c: char)
    requires s == [] || s[|s| - 1] != c
    ensures RStripChar(s, c) == s
  {
  }

  /** `Path Group:` and a name set the current group to that name. */
  lemma GroupLineNames(pad: string, name: string)
    requires forall i :: 0 <= i < |pad| ==> IsSpace(pad[i])
    requires name != [] && !IsSpace(name[0]) && !IsSpace(name[|name| - 1]) && '\n' !in name
    ensures Classify("Path Group:" + pad + name) == GroupSeen(name)
  {
    var line := "Path Group:" + pad + name;
    assert line[|line| - 1] == name[|name| - 1];
    RStripCharUnchanged(line, '\n');
    FieldAfterReadsBack("Path Group:", pad, name);
  }

  lemma {:induction false} SpaceRunAll(s: string)
    requires forall i :: 0 <= i < |s| ==> IsSpace(s[i])
    ensures SpaceRun(s) == |s|
  {
    if s != [] {
      SpaceRunAll(s[1..]);
    }
  }

  /** `Path Group:` followed by blanks only names the group "UNSPECIFIED". */
  lemma BlankGroupLine(pad: string)
    requires pad != [] && forall i :: 0 <= i < |pad| ==> IsSpace(pad[i]) && pad[i] != '\n'
    ensures Classify("Path Group:" + pad) == GroupSeen("UNSPECIFIED")
  {
    var line := "Path Group:" + pad;
    assert line[|line| - 1] == pad[|pad| - 1];
    RStripCharUnchanged(line, '\n');
    assert line[..11] == "Path Group:";
    assert line[11..] == pad;
    SpaceRunAll(pad);
    assert pad[0] != '\n';
  }
}
