/**
 * The line patterns of `scripts/pt_summary_from_rpt.py`, each written out
 * as the match a backtracking regex engine finds: which lines a pattern
 * accepts and what its groups capture. Patterns are applied with
 * `re.match` (anchored at the start of the line) unless noted.
 */
module PtPatterns {
  import opened Text

  // ---------------------------------------------------------------------
  // Anchored keywords
  // ---------------------------------------------------------------------

  /** `^\s*<word>\b` where word ends in a word character. */
  predicate LeadingWord(line: string, word: string)
  {
    var t := LStrip(line);
    StartsWith(t, word) && (|t| == |word| || !IsWordChar(t[|word|]))
  }

  /** RE_POINT_TABLE: `^\s*Point\b`, the header of a point table. */
  predicate IsPointHeader(line: string)
  {
    LeadingWord(line, "Point")
  }

  /** RE_DATA_ARRIVAL: `^\s*data arrival time\b`. */
  predicate IsDataArrival(line: string)
  {
    LeadingWord(line, "data arrival time")
  }

  /** RE_CLK_NW_DELAY: `^\s*clock network delay \(propagated\)`. */
  predicate IsClockNetworkDelay(line: string)
  {
    StartsWith(LStrip(line), "clock network delay (propagated)")
  }

  /** RE_SLACK: `^\s*slack\b`. */
  predicate IsSlackLine(line: string)
  {
    LeadingWord(line, "slack")
  }

  /** The word w stands at k of t: whitespace or the end of t follows it. */
  predicate WordAt(t: string, k: nat, w: string)
  {
    k + |w| <= |t| && t[k..k + |w|] == w && (k + |w| == |t| || IsSpace(t[k + |w|]))
  }

  /** RE_PATH_GROUP: `^\s*Path Group:\s*(\S+)`, the first token after the colon. */
  function PathGroupName(line: string): (r: Option<string>)
    ensures r.Some? ==> r.value != [] && NoSpace(r.value)
    ensures r.Some? ==> StartsWith(LStrip(line), "Path Group:")
  {
    var t := LStrip(line);
    if !StartsWith(t, "Path Group:") then None
    else
      var rest := t[11..];
      var w := SpaceRun(rest);
      if w == |rest| then None
      else Some(FirstWord(rest))
  }

  /** The first whitespace-free run of s, after its leading spaces. */
  function FirstWord(s: string): string
  {
    var w := SpaceRun(s);
    s[w..w + NonSpaceRun(s[w..])]
  }

  /**
   * The group name is the first word after "Path Group:" and the spaces
   * that follow it, and a line with any non-space text after the colon has one.
   */
  lemma PathGroupNameWord(line: string)
    ensures var r := PathGroupName(line); var t := LStrip(line);
      r.Some? ==>
        exists k :: 11 <= k && WordAt(t, k, r.value) && forall j :: 11 <= j < k ==> IsSpace(t[j])
    ensures var t := LStrip(line);
      StartsWith(t, "Path Group:") && (exists j :: 11 <= j < |t| && !IsSpace(t[j])) ==> PathGroupName(line).Some?
  {
    var t := LStrip(line);
    if StartsWith(t, "Path Group:") {
      var rest := t[11..];
      var w := SpaceRun(rest);
      if w == |rest| {
        forall j | 11 <= j < |t| ensures IsSpace(t[j]) { assert t[j] == rest[j - 11]; }
      } else {
        assert PathGroupName(line) == Some(FirstWord(rest));
        FirstWordAfter(t, 11);
      }
    }
  }

  /** From a, past the spaces, the leading non-space run of t[a..] is a word of t. */
  lemma FirstWordAfter(t: string, a: nat)
    requires a <= |t|
    ensures exists k :: a <= k && WordAt(t, k, FirstWord(t[a..])) && forall j :: a <= j < k ==> IsSpace(t[j])
  {
    var rest := t[a..];
    var w := SpaceRun(rest);
    RunWord(rest, w);
    WordShift(t, a, w, FirstWord(rest));
    SpacesFrom(t, a);
  }

  /** The leading spaces of t[a..] are spaces of t. */
  lemma SpacesFrom(t: string, a: nat)
    requires a <= |t|
    ensures forall j :: a <= j < a + SpaceRun(t[a..]) ==> IsSpace(t[j])
  {
    var rest := t[a..];
    forall j | a <= j < a + SpaceRun(rest) ensures IsSpace(t[j]) { assert t[j] == rest[j - a]; }
  }

  /** The non-space run from w of s is a word of s. */
  lemma RunWord(s: string, w: nat)
    requires w <= |s|
    ensures WordAt(s, w, s[w..w + NonSpaceRun(s[w..])])
  {
    var r := s[w..];
    var n := NonSpaceRun(r);
    if w + n < |s| {
      assert s[w + n] == r[n];
    }
    WordOfRun(s, w, n);
  }

  /** A run of s that whitespace or the end of s follows is a word. */
  lemma WordOfRun(s: string, b: nat, n: nat)
    requires b + n <= |s| && (b + n == |s| || IsSpace(s[b + n]))
    ensures WordAt(s, b, s[b..b + n])
  {
  }

  /** A word of t[a..] is a word of t. */
  lemma WordShift(t: string, a: nat, k: nat, name: string)
    requires a <= |t| && WordAt(t[a..], k, name)
    ensures WordAt(t, a + k, name)
  {
    assert t[a + k..a + k + |name|] == t[a..][k..k + |name|];
    if a + k + |name| < |t| {
      assert t[a + k + |name|] == t[a..][k + |name|];
    }
  }

  // ---------------------------------------------------------------------
  // Startpoint / Endpoint:
  //   ^\s*<Heading>:\s*(.+?)\s*\((.*clocked by\s+(\S+).*)\)
  // ---------------------------------------------------------------------

  /** `.*\)` matches from position m of s: a ')' before the next '\n'. */
  predicate CloseAhead(s: string, m: nat)
    requires m <= |s|
  {
    CloseIn(s, m, m + DotRun(s[m..]))
  }

  /** A ')' lies in s[a..b]. */
  predicate CloseIn(s: string, a: nat, b: nat)
    requires a <= b <= |s|
  {
    ')' in s[a..b]
  }

  /**
   * `(\S+).*\)` at the front of s: the greedy token is cut back only as far
   * as needed for a ')' to remain reachable by `.*` on the same line, so the
   * capture is the longest prefix of the leading token after which a ')'
   * can still be reached.
   */
  function ClockToken(s: string): (r: Option<string>)
    ensures r.Some? ==> r.value != [] && NoSpace(r.value) && StartsWith(s, r.value)
  {
    var n := NonSpaceRun(s);
    if n == 0 then None
    else if CloseAhead(s, n) then Some(s[..n])
    else match LastIndexOf(s[1..n], ')')
      case Some(p) => Some(s[..p + 1])
      case None => None
  }

  /** What `(\S+).*\)` captures: the longest prefix of the leading token after which a ')' is reachable. */
  lemma ClockTokenLongest(s: string)
    ensures var r := ClockToken(s);
      r.Some? ==>
        |r.value| <= NonSpaceRun(s) && CloseAhead(s, |r.value|)
        && forall m :: |r.value| < m <= NonSpaceRun(s) ==> !CloseAhead(s, m)
    ensures ClockToken(s).None? ==> forall m :: 1 <= m <= NonSpaceRun(s) ==> !CloseAhead(s, m)
  {
    var n := NonSpaceRun(s);
    if n > 0 && !CloseAhead(s, n) {
      var last := LastIndexOf(s[1..n], ')');
      if last.Some? {
        var p := last.value;
        assert ClockToken(s) == Some(s[..p + 1]);
        assert s[p + 1] == s[1..n][p];
        CloseAheadInToken(s, p + 1);
        forall m | p + 1 < m <= n ensures !CloseAhead(s, m) {
          forall k | m <= k < n ensures s[k] != ')' { assert s[k] == s[1..n][k - 1]; }
          NoCloseInToken(s, m);
        }
      } else {
        assert ClockToken(s).None?;
        forall m | 1 <= m <= n ensures !CloseAhead(s, m) {
          forall k | m <= k < n ensures s[k] != ')' { assert s[k] == s[1..n][k - 1]; }
          NoCloseInToken(s, m);
        }
      }
    }
  }

  /** With no ')' left in the token and none after it, `.*\)` fails from m. */
  lemma NoCloseInToken(s: string, m: nat)
    requires m <= NonSpaceRun(s) && !CloseAhead(s, NonSpaceRun(s))
    requires forall k :: m <= k < NonSpaceRun(s) ==> s[k] != ')'
    ensures !CloseAhead(s, m)
  {
    CloseAheadInToken(s, m);
  }

  /** Inside the leading token, `.*` first runs to the token's end. */
  lemma CloseAheadInToken(s: string, m: nat)
    requires m <= NonSpaceRun(s)
    ensures CloseAhead(s, m) <==> (CloseIn(s, m, NonSpaceRun(s)) || CloseAhead(s, NonSpaceRun(s)))
  {
    var n := NonSpaceRun(s);
    DotRunSkip(s, m, n);
    CloseAheadSplit(s, m, n);
  }

  /** When `.` runs from m over n, `.*\)` from m finds a ')' before n or from n on. */
  lemma CloseAheadSplit(s: string, m: nat, n: nat)
    requires m <= n <= |s| && DotRun(s[m..]) == n - m + DotRun(s[n..])
    ensures CloseAhead(s, m) <==> (CloseIn(s, m, n) || CloseAhead(s, n))
  {
    CloseInSplit(s, m, n, n + DotRun(s[n..]));
  }

  /** A ')' lies in s[a..c] exactly when it lies in s[a..b] or in s[b..c]. */
  lemma CloseInSplit(s: string, a: nat, b: nat, c: nat)
    requires a <= b <= c <= |s|
    ensures CloseIn(s, a, c) <==> CloseIn(s, a, b) || CloseIn(s, b, c)
  {
    assert s[a..c] == s[a..b] + s[b..c];
  }

  /** `.` runs over a stretch without '\n'. */
  lemma {:induction false} DotRunSkip(s: string, m: nat, n: nat)
    requires m <= n <= NonSpaceRun(s)
    ensures DotRun(s[m..]) == n - m + DotRun(s[n..])
    decreases n - m
  {
    if m < n {
      assert !IsSpace(s[m]);
      assert s[m..][1..] == s[m + 1..];
      DotRunSkip(s, m + 1, n);
    }
  }

  /** `clocked by\s+(\S+).*\)` at the front of s. */
  function ClockedByAt(s: string): (r: Option<string>)
    ensures r.Some? ==> r.value != [] && NoSpace(r.value)
  {
    if !StartsWith(s, "clocked by") then None
    else
      var rest := s[10..];
      var w := SpaceRun(rest);
      if w == 0 then None else ClockToken(rest[w..])
  }

  /** `clocked by\s+(\S+).*\)` tried at position k of s. */
  function ClockAt(s: string, k: nat): Option<string>
    requires k <= |s|
  {
    ClockedByAt(s[k..])
  }

  /** No position after j and up to i holds a workable "clocked by". */
  predicate RightmostClockedBy(s: string, j: nat, i: nat)
    requires i <= |s|
  {
    j <= i && forall k :: j < k <= i ==> ClockAt(s, k).None?
  }

  lemma RightmostExtend(s: string, j: nat, i: nat)
    requires 0 < i <= |s| && RightmostClockedBy(s, j, i - 1) && ClockAt(s, i).None?
    ensures RightmostClockedBy(s, j, i)
  {
    var c := ClockAt(s, i);
    forall k | j < k <= i ensures ClockAt(s, k).None? {
      if k == i {
        assert ClockAt(s, k) == c;
      }
    }
  }

  /** Try "clocked by" at position i of s, then further left. */
  function LastClockedBy(s: string, i: nat): (r: Option<string>)
    requires i <= |s|
    ensures r.Some? ==> r.value != [] && NoSpace(r.value)
    decreases i
  {
    match ClockAt(s, i)
    case Some(c) => Some(c)
    case None => if i == 0 then None else LastClockedBy(s, i - 1)
  }

  /** The search from i leftwards finds the rightmost position at or before i where "clocked by" works. */
  lemma {:induction false} LastClockedByRightmost(s: string, i: nat)
    requires i <= |s|
    ensures var r := LastClockedBy(s, i);
      r.Some? ==> exists j: nat :: RightmostClockedBy(s, j, i) && ClockAt(s, j) == r
    ensures LastClockedBy(s, i).None? ==> forall k :: 0 <= k <= i ==> ClockAt(s, k).None?
    decreases i
  {
    var c := ClockAt(s, i);
    if c.Some? {
      assert LastClockedBy(s, i) == c;
      assert RightmostClockedBy(s, i, i);
    } else if i > 0 {
      assert LastClockedBy(s, i) == LastClockedBy(s, i - 1);
      LastClockedByRightmost(s, i - 1);
      var r := LastClockedBy(s, i - 1);
      if r.Some? {
        var j: nat :| RightmostClockedBy(s, j, i - 1) && ClockAt(s, j) == r;
        RightmostExtend(s, j, i);
      } else {
        forall k | 0 <= k <= i ensures ClockAt(s, k).None? {
          if k == i {
            assert ClockAt(s, k) == c;
          }
        }
      }
    } else {
      assert LastClockedBy(s, i).None?;
      forall k | 0 <= k <= i ensures ClockAt(s, k).None? {
        assert k == i;
        assert ClockAt(s, k) == c;
      }
    }
  }

  /**
   * `.*clocked by\s+(\S+).*\)` at the front of s: the greedy `.*` makes the
   * rightmost workable "clocked by" on the line win.
   */
  function ClockedByTail(s: string): (r: Option<string>)
    ensures r.Some? ==> r.value != [] && NoSpace(r.value)
  {
    LastClockedBy(s, DotRun(s))
  }

  /** The clock group `\s*\((.*clocked by\s+(\S+).*)\)` tried right after an instance ending at e. */
  function ClockAfter(s: string, e: nat): Option<string>
    requires e <= |s|
  {
    var q := e + SpaceRun(s[e..]);
    if q < |s| && s[q] == '(' then ClockedByTail(s[q + 1..]) else None
  }

  /** No instance end from e up to (not including) e2 is followed by a clock group. */
  predicate NoClockBefore(s: string, e: nat, e2: nat)
    requires e2 <= |s| + 1
  {
    e <= e2 && forall e3 :: e <= e3 < e2 ==> ClockAfter(s, e3).None?
  }

  lemma NoClockShift(s: string, e: nat, e2: nat)
    requires e < e2 <= |s| + 1 && NoClockBefore(s, e + 1, e2) && ClockAfter(s, e).None?
    ensures NoClockBefore(s, e, e2)
  {
    var c := ClockAfter(s, e);
    forall e3 | e <= e3 < e2 ensures ClockAfter(s, e3).None? {
      if e3 == e {
        assert ClockAfter(s, e3) == c;
      }
    }
  }

  /**
   * The lazy `(.+?)`: try instance ends e, e+1, ..., hi in turn; the first
   * end after which the clock group matches wins.
   */
  function LazyEnd(s: string, e: nat, hi: nat): (r: Option<nat>)
    requires hi <= |s|
    ensures r.Some? ==> e <= r.value <= hi && ClockAfter(s, r.value).Some? && NoClockBefore(s, e, r.value)
    ensures r.None? ==> e > hi || NoClockBefore(s, e, hi + 1)
    decreases hi + 1 - e
  {
    if e > hi then None
    else if ClockAfter(s, e).Some? then Some(e)
    else
      var r := LazyEnd(s, e + 1, hi);
      assert r.Some? ==> NoClockBefore(s, e, r.value) by {
        if r.Some? { NoClockShift(s, e, r.value); }
      }
      assert r.None? ==> NoClockBefore(s, e, hi + 1) by {
        if r.None? {
          assert NoClockBefore(s, e + 1, hi + 1);
          NoClockShift(s, e, hi + 1);
        }
      }
      r
  }

  /** Where `.` stops when it starts at m of s: the end of m's line. */
  function LineEnd(s: string, m: nat): (r: nat)
    requires m <= |s|
    ensures m <= r <= |s|
  {
    m + DotRun(s[m..])
  }

  /** Right at a '(' the clock group reads on from the next character. */
  lemma ClockAfterOpen(s: string, m: nat)
    requires m < |s| && s[m] == '('
    ensures ClockAfter(s, m) == ClockedByTail(s[m + 1..])
  {
    assert SpaceRun(s[m..]) == 0;
  }

  /**
   * RE_STARTPOINT / RE_ENDPOINT with heading "Startpoint:" / "Endpoint:":
   * (group 1 stripped, group 3 stripped), i.e. (instance, clock).
   */
  function PointLine(line: string, heading: string): (r: Option<(string, string)>)
    ensures r.Some? ==> StartsWith(LStrip(line), heading)
    ensures r.Some? ==> r.value.1 != [] && NoSpace(r.value.1)
  {
    var t := LStrip(line);
    if !StartsWith(t, heading) then None else PointRest(t[|heading|..])
  }

  /** `\s*(.+?)\s*\((.*clocked by\s+(\S+).*)\)` on the text after the heading. */
  function PointRest(s: string): (r: Option<(string, string)>)
    ensures r.Some? ==> r.value.1 != [] && NoSpace(r.value.1)
  {
    var m := SpaceRun(s);
    InstanceFrom(s, m, LazyEnd(s, m + 1, LineEnd(s, m)))
  }

  /** The match once the lazy search for an instance end has given l. */
  function InstanceFrom(s: string, m: nat, l: Option<nat>): (r: Option<(string, string)>)
    requires m <= |s| && (l.Some? ==> m <= l.value <= |s| && ClockAfter(s, l.value).Some?)
    ensures r.Some? ==> r.value.1 != [] && NoSpace(r.value.1)
  {
    match l
    case Some(e) => Some((Strip(s[m..e]), ClockAfter(s, e).value))
    case None => EmptyInstance(s, m)
  }

  /**
   * When no instance end works, `\s*` can hand one whitespace character
   * (other than '\n') of the m leading ones to `(.+?)`, which then strips
   * to the empty instance.
   */
  function EmptyInstance(s: string, m: nat): (r: Option<(string, string)>)
    requires m <= |s|
    ensures r.Some? ==> r.value.0 == "" && ClockAfter(s, m) == Some(r.value.1)
  {
    if (exists k :: 0 <= k < m && s[k] != '\n') && m < |s| && s[m] == '(' then
      ClockAfterOpen(s, m);
      match ClockedByTail(s[m + 1..])
      case Some(c) => Some(("", c))
      case None => None
    else None
  }

  /**
   * The instance `inst` and clock `clk` come from ending the instance at e:
   * e is the end of the spaces after the heading or the first later end at
   * which the clock group matches, `clk` is what that group captures, and
   * `inst` is the stripped text from the end of the spaces to e.
   */
  predicate InstanceEnd(s: string, e: nat, inst: string, clk: string)
    requires e <= |s|
  {
    SpaceRun(s) <= e && (e == SpaceRun(s) || NoClockBefore(s, SpaceRun(s) + 1, e))
    && ClockAfter(s, e) == Some(clk) && inst == Strip(s[SpaceRun(s)..e])
  }

  /** The instance and clock read from the text after the heading. */
  lemma PointRestInstance(s: string)
    ensures var r := PointRest(s);
      r.Some? ==> exists e: nat :: e <= |s| && InstanceEnd(s, e, r.value.0, r.value.1)
  {
    var m := SpaceRun(s);
    InstanceFromEnd(s, m, LazyEnd(s, m + 1, LineEnd(s, m)));
  }

  /** Whatever end the lazy search gives, the match read from it is an instance end. */
  lemma InstanceFromEnd(s: string, m: nat, l: Option<nat>)
    requires m == SpaceRun(s)
    requires l.Some? ==> m + 1 <= l.value <= |s| && ClockAfter(s, l.value).Some? && NoClockBefore(s, m + 1, l.value)
    ensures var r := InstanceFrom(s, m, l);
      r.Some? ==> exists e: nat :: e <= |s| && InstanceEnd(s, e, r.value.0, r.value.1)
  {
    if l.Some? {
      FoundInstanceEnd(s, l.value);
    } else if InstanceFrom(s, m, l).Some? {
      EmptyInstanceEnd(s);
    }
  }

  lemma FoundInstanceEnd(s: string, e: nat)
    requires SpaceRun(s) < e <= |s| && NoClockBefore(s, SpaceRun(s) + 1, e) && ClockAfter(s, e).Some?
    ensures var r := InstanceFrom(s, SpaceRun(s), Some(e)); r.Some? && InstanceEnd(s, e, r.value.0, r.value.1)
  {
  }

  lemma EmptyInstanceEnd(s: string)
    requires InstanceFrom(s, SpaceRun(s), None).Some?
    ensures var r := InstanceFrom(s, SpaceRun(s), None); InstanceEnd(s, SpaceRun(s), r.value.0, r.value.1)
  {
    var m := SpaceRun(s);
    assert Strip(s[m..m]) == "";
  }

  /** The instance and clock of a Startpoint/Endpoint line, as the text after the heading gives them. */
  lemma PointLineInstance(line: string, heading: string)
    ensures var r := PointLine(line, heading);
      r.Some? ==> StartsWith(LStrip(line), heading) && var s := LStrip(line)[|heading|..];
        exists e: nat :: e <= |s| && InstanceEnd(s, e, r.value.0, r.value.1)
  {
    var t := LStrip(line);
    if StartsWith(t, heading) {
      PointRestInstance(t[|heading|..]);
    }
  }

  function StartpointMatch(line: string): Option<(string, string)>
  {
    PointLine(line, "Startpoint:")
  }

  function EndpointMatch(line: string): Option<(string, string)>
  {
    PointLine(line, "Endpoint:")
  }

  // ---------------------------------------------------------------------
  // Pins of a point-table row
  // ---------------------------------------------------------------------

  /**
   * `\s*\(` matches after a pin ending at k, where n ends the leading
   * whitespace-free run of t: inside the run only a '(' right at k will do.
   */
  predicate OpenAfter(t: string, n: nat, k: nat)
    requires k <= n <= |t|
  {
    if k == n then n + SpaceRun(t[n..]) < |t| && t[n + SpaceRun(t[n..])] == '(' else t[k] == '('
  }

  /** Largest pin end k in [lo, n] of RE_POINT_PIN's lazy `\S+?/[^\s]+` followed by `\s*\(`. */
  function PinEnd(t: string, n: nat, lo: nat, k: nat): (r: Option<nat>)
    requires k <= n <= |t|
    ensures r.Some? ==> lo <= r.value <= k
    ensures r.Some? ==> OpenAfter(t, n, r.value) && forall k2 :: r.value < k2 <= k ==> !OpenAfter(t, n, k2)
    ensures r.None? ==> forall k2 :: lo <= k2 <= k ==> !OpenAfter(t, n, k2)
    decreases k
  {
    if k < lo then None
    else if OpenAfter(t, n, k) then Some(k)
    else if k == 0 then None
    else PinEnd(t, n, lo, k - 1)
  }

  /**
   * RE_POINT_PIN `^\s*(\S+?/[^\s]+)\s*\(`: the pin of a row is a
   * whitespace-free text with a '/' after its first character and at least
   * one character after that '/', followed (perhaps after spaces) by '('.
   */
  function PointPin(line: string): (r: Option<string>)
    ensures r.Some? ==> |r.value| >= 3 && NoSpace(r.value)
    ensures r.Some? ==> exists j :: 1 <= j < |r.value| - 1 && r.value[j] == '/'
    ensures r.Some? ==> StartsWith(LStrip(line), r.value)
    ensures r.Some? ==> var t := LStrip(line); var n := NonSpaceRun(t);
      |r.value| <= n && OpenAfter(t, n, |r.value|) && forall k :: |r.value| < k <= n ==> !OpenAfter(t, n, k)
    ensures r.None? ==> var t := LStrip(line); var n := NonSpaceRun(t);
      forall j, k :: 1 <= j && j + 2 <= k <= n && t[j] == '/' ==> !OpenAfter(t, n, k)
  {
    var t := LStrip(line);
    var n := NonSpaceRun(t);
    if n == 0 then None
    else match IndexOf(t[1..n], '/')
      case None =>
        assert forall j :: 1 <= j < n ==> t[j] != '/' by {
          forall j | 1 <= j < n ensures t[j] != '/' { assert t[j] == t[1..n][j - 1]; }
        }
        None
      case Some(j0) =>
        var j := j0 + 1;
        assert forall i :: 1 <= i < j ==> t[i] != '/' by {
          forall i | 1 <= i < j ensures t[i] != '/' { assert t[i] == t[1..n][..j0][i - 1]; }
        }
        match PinEnd(t, n, j + 2, n)
        case None => None
        case Some(k) =>
          assert t[..k][j] == '/';
          Some(t[..k])
  }

  /** The text after some '/' of pin is one of the given suffixes (`/(?:...)$`). */
  predicate PinSuffix(pin: string, suffixOk: string -> bool)
  {
    exists k :: 0 <= k < |pin| && pin[k] == '/' && suffixOk(pin[k + 1..])
  }

  /** `name` followed by `\d*`. */
  predicate NumberedName(s: string, name: string)
  {
    StartsWith(s, name) && AllDigits(s[|name|..])
  }

  /** RE_OUTPUT_PIN `/(?:Z|ZN|Y|Q\d*|QB\d*|QN|CO|COUT|S|SO|SUM)$`. */
  predicate IsOutputPinName(s: string)
  {
    s == "Z" || s == "ZN" || s == "Y" || NumberedName(s, "Q") || NumberedName(s, "QB")
    || s == "QN" || s == "CO" || s == "COUT" || s == "S" || s == "SO" || s == "SUM"
  }

  /** RE_DATA_PIN `/(?:D\d*|DIN\d*|DATA\d*)$`. */
  predicate IsDataPinName(s: string)
  {
    NumberedName(s, "D") || NumberedName(s, "DIN") || NumberedName(s, "DATA")
  }

  predicate IsOutputPin(pin: string)
  {
    PinSuffix(pin, IsOutputPinName)
  }

  predicate IsDataPin(pin: string)
  {
    PinSuffix(pin, IsDataPinName)
  }

  /** No pin name is both a capture data pin and a cell output pin. */
  lemma DataAndOutputPinNamesDisjoint(s: string)
    ensures !(IsDataPinName(s) && IsOutputPinName(s))
  {
    if IsDataPinName(s) {
      assert s[0] == 'D';
    }
  }

  // ---------------------------------------------------------------------
  // Numbers on a line
  // ---------------------------------------------------------------------

  /** Leftmost position at or after i where a token starts (`re.search`). */
  function FirstTokenFrom(s: string, i: nat): (r: Option<nat>)
    requires i <= |s|
    ensures r.Some? ==> i <= r.value < |s| && TokenStart(s[r.value..])
    ensures r.Some? ==> forall k :: i <= k < r.value ==> !TokenStart(s[k..])
    ensures r.None? ==> forall k :: i <= k <= |s| ==> !TokenStart(s[k..])
    decreases |s| - i
  {
    if i == |s| then None
    else if TokenStart(s[i..]) then Some(i)
    else FirstTokenFrom(s, i + 1)
  }

  /** RE_FIRST_FLOAT, then `float`: parse_first_float. */
  function ParseFirstFloat(line: string): (r: Option<real>)
    ensures r.None? <==> forall k :: 0 <= k <= |line| ==> !TokenStart(line[k..])
    ensures r.Some? ==>
      exists i ::
        0 <= i < |line| && TokenStart(line[i..]) && (forall k :: 0 <= k < i ==> !TokenStart(line[k..]))
        && IsDecimalToken(line[i..][..TokenLen(line[i..])]) && r.value == TokenValue(line[i..][..TokenLen(line[i..])])
  {
    match FirstTokenFrom(line, 0)
    case None => None
    case Some(i) =>
      var tok := line[i..][..TokenLen(line[i..])];
      assert IsDecimalToken(tok) by { TokenPrefix(line[i..]); }
      Some(TokenValue(tok))
  }

  /** The greedy token at the front of s is a token on its own. */
  lemma TokenPrefix(s: string)
    requires TokenStart(s)
    ensures IsDecimalToken(s[..TokenLen(s)])
  {
    var n := TokenLen(s);
    var t := s[..n];
    var sg := SignLen(s);
    var a := sg + DigitRun(s[sg..]);
    IntegerPartPrefix(s, n);
    assert TokenStart(t) by {
      assert t[0] == s[0];
      if sg == 1 {
        assert t[1] == s[1];
      }
    }
    if a + 1 < |s| && s[a] == '.' && IsDigit(s[a + 1]) {
      FractionPrefix(s, a, n);
    }
  }

  /** Cutting s after its token keeps the sign and the integer digits. */
  lemma IntegerPartPrefix(s: string, n: nat)
    requires SignLen(s) + DigitRun(s[SignLen(s)..]) <= n <= |s|
    ensures var t := s[..n];
      SignLen(t) == SignLen(s) && DigitRun(t[SignLen(t)..]) == DigitRun(s[SignLen(s)..])
  {
    var t := s[..n];
    var sg := SignLen(s);
    assert SignLen(t) == sg;
    assert t[sg..] == s[sg..][..n - sg];
    DigitRunPrefix(s[sg..], n - sg);
  }

  /** Cutting s after its token keeps the fraction digits. */
  lemma FractionPrefix(s: string, a: nat, n: nat)
    requires a + 1 < |s| && n == a + 1 + DigitRun(s[a + 1..])
    ensures DigitRun(s[..n][a + 1..]) == DigitRun(s[a + 1..])
  {
    assert s[..n][a + 1..] == s[a + 1..][..n - a - 1];
    DigitRunPrefix(s[a + 1..], n - a - 1);
  }

  lemma DigitRunPrefix(s: string, n: nat)
    requires DigitRun(s) <= n <= |s|
    ensures DigitRun(s[..n]) == DigitRun(s)
    decreases n
  {
    if s != [] && IsDigit(s[0]) && n > 0 {
      assert s[..n][1..] == s[1..][..n - 1];
      DigitRunPrefix(s[1..], n - 1);
    }
  }

  /** A digit occurs in s before the first '\n' (`(?=.*[-+]?\d)`). */
  predicate DigitAhead(s: string)
  {
    s != [] && s[0] != '\n' && (IsDigit(s[0]) || DigitAhead(s[1..]))
  }

  lemma {:induction false} NoDigitNotAhead(s: string)
    requires forall k :: 0 <= k < |s| ==> !IsDigit(s[k])
    ensures !DigitAhead(s)
  {
    if s != [] {
      NoDigitNotAhead(s[1..]);
    }
  }

  /** A token starts at i of s and no digit follows it on its line. */
  predicate LastTokenAt(s: string, i: nat)
    requires i <= |s|
  {
    TokenStart(s[i..]) && !DigitAhead(s[i + TokenLen(s[i..])..])
  }

  /** Leftmost token start at or after i whose greedy token has no digit after it on its line. */
  function LastTokenFrom(s: string, i: nat): (r: Option<nat>)
    requires i <= |s|
    ensures r.Some? ==> i <= r.value < |s| && LastTokenAt(s, r.value)
    decreases |s| - i
  {
    if i == |s| then None
    else if LastTokenAt(s, i) then Some(i)
    else LastTokenFrom(s, i + 1)
  }

  /** The search finds the leftmost working position, and finds nothing only when none works. */
  lemma {:induction false} LastTokenFromLeftmost(s: string, i: nat)
    requires i <= |s|
    ensures var r := LastTokenFrom(s, i);
      r.Some? ==> forall j :: i <= j < r.value ==> !LastTokenAt(s, j)
    ensures LastTokenFrom(s, i).None? ==> forall j :: i <= j < |s| ==> !LastTokenAt(s, j)
    decreases |s| - i
  {
    if i < |s| && !LastTokenAt(s, i) {
      LastTokenFromLeftmost(s, i + 1);
      var r := LastTokenFrom(s, i);
      assert r == LastTokenFrom(s, i + 1);
      var here := LastTokenAt(s, i);
      if r.Some? {
        forall j | i <= j < r.value ensures !LastTokenAt(s, j) {
          if j == i { assert LastTokenAt(s, j) == here; }
        }
      } else {
        forall j | i <= j < |s| ensures !LastTokenAt(s, j) {
          if j == i { assert LastTokenAt(s, j) == here; }
        }
      }
    }
  }

  /** RE_LAST_FLOAT `([-+]?\d+(?:\.\d+)?)(?!.*[-+]?\d)`: parse_last_float_token. */
  function ParseLastFloatToken(line: string): (r: Option<string>)
    ensures r.Some? ==> IsDecimalToken(r.value)
  {
    match LastTokenFrom(line, 0)
    case None => None
    case Some(i) =>
      TokenPrefix(line[i..]);
      Some(line[i..][..TokenLen(line[i..])])
  }

  /** The token returned is the one at the leftmost position where RE_LAST_FLOAT matches. */
  lemma ParseLastFloatTokenLeftmost(line: string)
    ensures var r := ParseLastFloatToken(line);
      r.Some? ==>
        exists i: nat ::
          i < |line| && LastTokenAt(line, i) && (forall j :: 0 <= j < i ==> !LastTokenAt(line, j))
          && r.value == line[i..][..TokenLen(line[i..])]
    ensures ParseLastFloatToken(line).None? ==> forall j :: 0 <= j < |line| ==> !LastTokenAt(line, j)
  {
    LastTokenFromLeftmost(line, 0);
    var f := LastTokenFrom(line, 0);
    if f.Some? {
      var i := f.value;
      assert ParseLastFloatToken(line) == Some(line[i..][..TokenLen(line[i..])]);
    }
  }

  /** A line holds a last numeric token exactly when it holds a digit at all. */
  lemma LastFloatTokenExists(line: string)
    ensures ParseLastFloatToken(line).Some? <==> exists k :: 0 <= k < |line| && IsDigit(line[k])
  {
    if exists k :: 0 <= k < |line| && IsDigit(line[k]) {
      // the start of the digit run holding the last digit of the line
      var d := LastDigit(line, |line|);
      var r := DigitRunStart(line, d);
      LastRunWorks(line, d, r);
      NoLastTokenBefore(line, 0, r);
    }
  }

  /** The digit run holding the line's last digit is a token with no digit after it. */
  lemma LastRunWorks(line: string, d: nat, r: nat)
    requires d < |line| && IsDigit(line[d]) && forall k :: d < k < |line| ==> !IsDigit(line[k])
    requires r <= d && forall k :: r <= k <= d ==> IsDigit(line[k])
    ensures LastTokenAt(line, r)
  {
    var s := line[r..];
    assert TokenStart(s);
    assert DigitRun(s) > d - r by { DigitsFrom(line, r, d); }
    var e := r + TokenLen(s);
    assert e > d;
    assert forall k :: 0 <= k < |line[e..]| ==> !IsDigit(line[e..][k]) by {
      forall k | 0 <= k < |line[e..]| ensures !IsDigit(line[e..][k]) {
        assert line[e..][k] == line[e + k];
      }
    }
    NoDigitNotAhead(line[e..]);
  }

  /** The last digit of s[..n] and no digit after it. */
  function LastDigit(s: string, n: nat): (d: nat)
    requires n <= |s| && exists k :: 0 <= k < n && IsDigit(s[k])
    ensures d < n && IsDigit(s[d]) && forall k :: d < k < |s| ==> (k < n ==> !IsDigit(s[k]))
    decreases n
  {
    if IsDigit(s[n - 1]) then n - 1 else LastDigit(s, n - 1)
  }

  /** The first position of the digit run ending at or after d. */
  function DigitRunStart(s: string, d: nat): (r: nat)
    requires d < |s| && IsDigit(s[d])
    ensures r <= d && forall k :: r <= k <= d ==> IsDigit(s[k])
    ensures r == 0 || !IsDigit(s[r - 1])
    decreases d
  {
    if d > 0 && IsDigit(s[d - 1]) then DigitRunStart(s, d - 1) else d
  }

  lemma DigitsFrom(s: string, r: nat, d: nat)
    requires r <= d < |s| && forall k :: r <= k <= d ==> IsDigit(s[k])
    ensures DigitRun(s[r..]) > d - r
    decreases d - r
  {
    if r < d {
      assert s[r..][1..] == s[r + 1..];
      DigitsFrom(s, r + 1, d);
    }
  }

  /** When position r works, the leftmost search from i <= r finds something. */
  lemma NoLastTokenBefore(s: string, i: nat, r: nat)
    requires i <= r < |s| && LastTokenAt(s, r)
    ensures LastTokenFrom(s, i).Some?
    decreases r - i
  {
    if i < r && !LastTokenAt(s, i) {
      NoLastTokenBefore(s, i + 1, r);
    }
  }

  // ---------------------------------------------------------------------
  // Slack values
  // ---------------------------------------------------------------------

  /** The value given to a slack printed as a negative zero such as "-0.000": -1e-12. */
  const NegativeZeroSlack: real := -0.000000000001

  /**
   * parse_slack_value: the last number on the line; a negative zero is
   * nudged just below zero so that it still counts as a violation.
   */
  function ParseSlackValue(line: string): (r: Option<real>)
    ensures r.None? <==> ParseLastFloatToken(line).None?
    ensures r.Some? ==>
      var tok := ParseLastFloatToken(line).value;
      (r.value == TokenValue(tok) || (TokenValue(tok) == 0.0 && r.value == NegativeZeroSlack))
      && (r.value < 0.0 <==> tok[0] == '-')
  {
    match ParseLastFloatToken(line)
    case None => None
    case Some(tok) =>
      var v := TokenValue(tok);
      if v == 0.0 && StartsWith(tok, "-") then Some(NegativeZeroSlack) else Some(v)
  }

  /** A slack line yields a value exactly when it holds a digit. */
  lemma SlackValuePresent(line: string)
    ensures ParseSlackValue(line).Some? <==> exists k :: 0 <= k < |line| && IsDigit(line[k])
  {
    LastFloatTokenExists(line);
  }
}
