/**
 * The reductions and orderings behind `emit_summary`: the violating paths,
 * the grand totals, the per-key tables (count, worst slack, total slack)
 * filled one record at a time, the stage-count histogram, the detail
 * listing grouped by startpoint, and the sort orders of every table.
 */
module PtSummary {
  import opened Text
  import opened Collections
  import opened PtScanner
  import opened PtBins
  import opened PtBlocks

  // ---------------------------------------------------------------------
  // Violations and grand totals
  // ---------------------------------------------------------------------

  /** `p.slack is not None and p.slack < 0` */
  predicate IsViolation(p: PathRec)
  {
    p.slack.Some? && p.slack.value < 0.0
  }

  /** `neg`: the violating paths, in report order. */
  function Violations(paths: seq<PathRec>): seq<PathRec>
  {
    Filter(paths, IsViolation)
  }

  /** `neg` holds each violating path as often as the report does, and nothing else. */
  lemma ViolationsExactly(paths: seq<PathRec>, p: PathRec)
    ensures multiset(Violations(paths))[p] == if IsViolation(p) then multiset(paths)[p] else 0
    ensures forall i :: 0 <= i < |Violations(paths)| ==> IsViolation(Violations(paths)[i])
  {
    FilterCount(paths, IsViolation, p);
  }

  /** `p.slack if p.slack is not None else 0.0` */
  function SlackOf(p: PathRec): real
  {
    if p.slack.Some? then p.slack.value else 0.0
  }

  /** `min(slacks, default=0.0)` */
  function Wns(xs: seq<PathRec>): real
  {
    if xs == [] then 0.0 else MinReal(xs, SlackOf)
  }

  /** The worst slack is a slack of some record and no record's slack is lower; 0.0 with no records. */
  lemma WnsIsMin(xs: seq<PathRec>)
    ensures xs != [] ==> (forall i :: 0 <= i < |xs| ==> Wns(xs) <= SlackOf(xs[i])) && exists i :: 0 <= i < |xs| && Wns(xs) == SlackOf(xs[i])
    ensures xs == [] ==> Wns(xs) == 0.0
  {
    if xs != [] {
      var i :| 0 <= i < |xs| && MinReal(xs, SlackOf) == SlackOf(xs[i]);
    }
  }

  /** `sum(slacks, 0.0)` */
  function Tns(xs: seq<PathRec>): real
  {
    SumReal(xs, SlackOf)
  }

  /** Every term of the slack sum of the violations is negative, so is the sum unless there are none. */
  lemma {:induction false} TnsNegative(xs: seq<PathRec>)
    requires forall i :: 0 <= i < |xs| ==> IsViolation(xs[i])
    ensures xs == [] <==> Tns(xs) == 0.0
    ensures Tns(xs) <= Wns(xs)
  {
    if xs != [] {
      TnsNegative(xs[1..]);
      assert forall i :: 1 <= i < |xs| ==> xs[i] == xs[1..][i - 1];
      if xs[1..] != [] {
        MinRealIs(xs, SlackOf, if SlackOf(xs[0]) <= Wns(xs[1..]) then SlackOf(xs[0]) else Wns(xs[1..]));
      }
    }
  }

  // ---------------------------------------------------------------------
  // Grouping by a key
  // ---------------------------------------------------------------------

  /** The records of xs whose key is k, in order. */
  function Members<K(==)>(xs: seq<PathRec>, key: PathRec -> K, k: K): seq<PathRec>
  {
    if xs == [] then []
    else Members(xs[..|xs| - 1], key, k) + (if key(xs[|xs| - 1]) == k then [xs[|xs| - 1]] else [])
  }

  /** `by_start[key(p)].append(p)` on a `defaultdict(list)`. */
  function Appended<K(==)>(d: seq<(K, seq<PathRec>)>, k: K, p: PathRec): seq<(K, seq<PathRec>)>
  {
    match KeyIndex(d, k)
    case None => d + [(k, [p])]
    case Some(i) => d[i := (k, d[i].1 + [p])]
  }

  /** The `defaultdict(list)` after appending every record under its key. */
  function Grouped<K(==)>(xs: seq<PathRec>, key: PathRec -> K): seq<(K, seq<PathRec>)>
  {
    if xs == [] then []
    else
      var p := xs[|xs| - 1];
      Appended(Grouped(xs[..|xs| - 1], key), key(p), p)
  }

  /** The grouping is exactly the records of each key, each key once. */
  lemma {:induction false} GroupedMembers<K>(xs: seq<PathRec>, key: PathRec -> K)
    ensures var g := Grouped(xs, key);
      DistinctKeys(g)
      && (forall j :: 0 <= j < |g| ==> g[j].1 == Members(xs, key, g[j].0) && |g[j].1| > 0)
      && (forall k :: KeyIndex(g, k).None? <==> |Members(xs, key, k)| == 0)
  {
    if xs != [] {
      var init := xs[..|xs| - 1];
      var p := xs[|xs| - 1];
      GroupedMembers(init, key);
      assert xs == init + [p];
      var d := Grouped(init, key);
      match KeyIndex(d, key(p))
      case None =>
        AppendedNew(d, init, key, p);
      case Some(i) =>
        AppendedOld(d, init, key, p, i);
    }
  }

  lemma MembersSnoc<K>(xs: seq<PathRec>, p: PathRec, key: PathRec -> K, k: K)
    ensures Members(xs + [p], key, k) == Members(xs, key, k) + (if key(p) == k then [p] else [])
  {
    assert (xs + [p])[..|xs|] == xs;
  }

  /** A record with a new key opens a group of its own at the end. */
  lemma AppendedNew<K>(d: seq<(K, seq<PathRec>)>, xs: seq<PathRec>, key: PathRec -> K, p: PathRec)
    requires DistinctKeys(d)
    requires forall j :: 0 <= j < |d| ==> d[j].1 == Members(xs, key, d[j].0) && |d[j].1| > 0
    requires forall k :: KeyIndex(d, k).None? <==> |Members(xs, key, k)| == 0
    requires KeyIndex(d, key(p)).None?
    ensures var g := d + [(key(p), [p])];
      DistinctKeys(g)
      && (forall j :: 0 <= j < |g| ==> g[j].1 == Members(xs + [p], key, g[j].0) && |g[j].1| > 0)
      && (forall k :: KeyIndex(g, k).None? <==> |Members(xs + [p], key, k)| == 0)
  {
    var g := d + [(key(p), [p])];
    forall j | 0 <= j < |g|
      ensures g[j].1 == Members(xs + [p], key, g[j].0) && |g[j].1| > 0
    {
      MembersSnoc(xs, p, key, g[j].0);
      if j == |d| {
        assert |Members(xs, key, key(p))| == 0;
      }
    }
    forall k ensures KeyIndex(g, k).None? <==> |Members(xs + [p], key, k)| == 0 {
      MembersSnoc(xs, p, key, k);
      if k == key(p) {
        assert g[|d|].0 == k;
      } else {
        KeyIndexSnoc(d, (key(p), [p]), k);
      }
    }
  }

  /** A record with a known key joins the end of that key's group. */
  lemma AppendedOld<K>(d: seq<(K, seq<PathRec>)>, xs: seq<PathRec>, key: PathRec -> K, p: PathRec, i: nat)
    requires DistinctKeys(d)
    requires forall j :: 0 <= j < |d| ==> d[j].1 == Members(xs, key, d[j].0) && |d[j].1| > 0
    requires forall k :: KeyIndex(d, k).None? <==> |Members(xs, key, k)| == 0
    requires KeyIndex(d, key(p)) == Some(i)
    ensures var g := d[i := (key(p), d[i].1 + [p])];
      DistinctKeys(g)
      && (forall j :: 0 <= j < |g| ==> g[j].1 == Members(xs + [p], key, g[j].0) && |g[j].1| > 0)
      && (forall k :: KeyIndex(g, k).None? <==> |Members(xs + [p], key, k)| == 0)
  {
    var g := d[i := (key(p), d[i].1 + [p])];
    forall j | 0 <= j < |g|
      ensures g[j].1 == Members(xs + [p], key, g[j].0) && |g[j].1| > 0
    {
      MembersSnoc(xs, p, key, g[j].0);
    }
    forall k ensures KeyIndex(g, k).None? <==> |Members(xs + [p], key, k)| == 0 {
      MembersSnoc(xs, p, key, k);
      KeyIndexUpdate(d, i, d[i].1 + [p], k);
    }
  }

  // ---------------------------------------------------------------------
  // Tables: count, worst and total slack per key
  // ---------------------------------------------------------------------

  /** One row of a table: `count[k]`, `wns[k]` and `tns[k]`. */
  datatype Stat = Stat(count: nat, worst: real, total: real)

  function RowCount<K>(e: (K, Stat)): nat { e.1.count }
  function RowTotal<K>(e: (K, Stat)): real { e.1.total }
  function RowWorst<K>(e: (K, Stat)): real { e.1.worst }

  /** The row a group of records reduces to. */
  function Reduce(g: seq<PathRec>): Stat
  {
    Stat(|g|, Wns(g), Tns(g))
  }

  /** One record with slack v under key k: `count[k] += 1`, `tns[k] += v`, `wns[k] = min(wns.get(k, v), v)`. */
  function Tallied<K(==)>(d: seq<(K, Stat)>, k: K, v: real): seq<(K, Stat)>
  {
    match KeyIndex(d, k)
    case None => d + [(k, Stat(1, v, v))]
    case Some(i) => d[i := (k, Stat(d[i].1.count + 1, if v < d[i].1.worst then v else d[i].1.worst, d[i].1.total + v))]
  }

  /** The table after every record of xs, in order. */
  function Tally<K(==)>(xs: seq<PathRec>, key: PathRec -> K): seq<(K, Stat)>
  {
    if xs == [] then []
    else
      var p := xs[|xs| - 1];
      Tallied(Tally(xs[..|xs| - 1], key), key(p), SlackOf(p))
  }

  /** The loops of `emit_summary` that fill one table. */
  method TallyBy<K(==)>(xs: seq<PathRec>, key: PathRec -> K) returns (d: seq<(K, Stat)>)
    ensures d == Tally(xs, key)
  {
    d := [];
    var i := 0;
    while i < |xs|
      invariant 0 <= i <= |xs|
      invariant d == Tally(xs[..i], key)
    {
      assert xs[..i + 1][..i] == xs[..i];
      var k := key(xs[i]);
      var v := SlackOf(xs[i]);
      match KeyIndex(d, k) {
        case None =>
          d := d + [(k, Stat(1, v, v))];
        case Some(j) =>
          var worst := if v < d[j].1.worst then v else d[j].1.worst;
          d := d[j := (k, Stat(d[j].1.count + 1, worst, d[j].1.total + v))];
      }
      i := i + 1;
    }
    assert xs[..i] == xs;
  }

  /** The reduction of each group, in the order of the grouping. */
  function ReduceAll<K>(g: seq<(K, seq<PathRec>)>): (t: seq<(K, Stat)>)
    ensures |t| == |g| && forall j :: 0 <= j < |g| ==> t[j] == (g[j].0, Reduce(g[j].1))
  {
    if g == [] then [] else ReduceAll(g[..|g| - 1]) + [(g[|g| - 1].0, Reduce(g[|g| - 1].1))]
  }

  /** Adding one record to a non-empty group updates its row as the table loop does. */
  lemma ReduceSnoc(g: seq<PathRec>, p: PathRec)
    requires g != []
    ensures var r := Reduce(g);
      Reduce(g + [p]) == Stat(r.count + 1, if SlackOf(p) < r.worst then SlackOf(p) else r.worst, r.total + SlackOf(p))
  {
    MinRealSnoc(g, p, SlackOf);
    SumRealAppend(g, [p], SlackOf);
  }

  /**
   * The incrementally filled table is the reduction of the grouping: each
   * key's row counts its records, and holds their minimum and their sum.
   */
  lemma {:induction false} TallyIsReduced<K>(xs: seq<PathRec>, key: PathRec -> K)
    ensures Tally(xs, key) == ReduceAll(Grouped(xs, key))
  {
    if xs != [] {
      var init := xs[..|xs| - 1];
      var p := xs[|xs| - 1];
      TallyIsReduced(init, key);
      GroupedMembers(init, key);
      var g := Grouped(init, key);
      var t := Tally(init, key);
      TalliedIsAppended(g, key(p), p);
    }
  }

  /** One step of the table loop matches one step of the grouping loop. */
  lemma TalliedIsAppended<K>(g: seq<(K, seq<PathRec>)>, k: K, p: PathRec)
    requires forall j :: 0 <= j < |g| ==> |g[j].1| > 0
    ensures Tallied(ReduceAll(g), k, SlackOf(p)) == ReduceAll(Appended(g, k, p))
  {
    KeyIndexSameKeys(ReduceAll(g), g, k);
    if KeyIndex(g, k).None? {
      ReduceOne(p);
      ReduceAllSnoc(g, (k, [p]));
    } else {
      AppendedToGroup(g, k, p, KeyIndex(g, k).value);
    }
  }

  lemma AppendedToGroup<K>(g: seq<(K, seq<PathRec>)>, k: K, p: PathRec, i: nat)
    requires i < |g| && |g[i].1| > 0 && KeyIndex(g, k) == Some(i)
    ensures Tallied(ReduceAll(g), k, SlackOf(p)) == ReduceAll(Appended(g, k, p))
  {
    AppendedRows(g, k, p, i);
    TalliedRow(g, k, p, i);
  }

  /** The reduction after the append differs in the row of k only. */
  lemma AppendedRows<K>(g: seq<(K, seq<PathRec>)>, k: K, p: PathRec, i: nat)
    requires KeyIndex(g, k) == Some(i)
    ensures ReduceAll(Appended(g, k, p)) == ReduceAll(g)[i := (k, Reduce(g[i].1 + [p]))]
  {
    assert Appended(g, k, p) == g[i := (k, g[i].1 + [p])];
    ReduceAllUpdate(g, i, (k, g[i].1 + [p]));
  }

  /** The table update at k sets the row of k to the reduction of the longer group. */
  lemma TalliedRow<K>(g: seq<(K, seq<PathRec>)>, k: K, p: PathRec, i: nat)
    requires i < |g| && |g[i].1| > 0 && KeyIndex(g, k) == Some(i)
    ensures Tallied(ReduceAll(g), k, SlackOf(p)) == ReduceAll(g)[i := (k, Reduce(g[i].1 + [p]))]
  {
    var t := ReduceAll(g);
    KeyIndexSameKeys(t, g, k);
    ReduceSnoc(g[i].1, p);
    TalliedAt(t, k, SlackOf(p), i, Reduce(g[i].1 + [p]), t[i := (k, Reduce(g[i].1 + [p]))]);
  }

  /** The table update at a key already present, as a sequence update. */
  lemma TalliedAt<K>(t: seq<(K, Stat)>, k: K, v: real, i: nat, s: Stat, u: seq<(K, Stat)>)
    requires KeyIndex(t, k) == Some(i)
    requires s == Stat(t[i].1.count + 1, if v < t[i].1.worst then v else t[i].1.worst, t[i].1.total + v)
    requires u == t[i := (k, s)]
    ensures Tallied(t, k, v) == u
  {
    match KeyIndex(t, k)
    case Some(i') =>
      assert i' == i;
  }

  lemma ReduceOne(p: PathRec)
    ensures Reduce([p]) == Stat(1, SlackOf(p), SlackOf(p))
  {
    assert [p][0] == p && [p][1..] == [];
    assert SumReal([p], SlackOf) == SlackOf(p) + SumReal([], SlackOf);
  }

  lemma ReduceAllSnoc<K>(g: seq<(K, seq<PathRec>)>, e: (K, seq<PathRec>))
    ensures ReduceAll(g + [e]) == ReduceAll(g) + [(e.0, Reduce(e.1))]
  {
    assert (g + [e])[..|g|] == g;
  }

  lemma ReduceAllUpdate<K>(g: seq<(K, seq<PathRec>)>, i: nat, e: (K, seq<PathRec>))
    requires i < |g|
    ensures ReduceAll(g[i := e]) == ReduceAll(g)[i := (e.0, Reduce(e.1))]
  {
  }

  /** Each key appears once in a table. */
  lemma TallyDistinct<K>(xs: seq<PathRec>, key: PathRec -> K)
    ensures DistinctKeys(Tally(xs, key))
  {
    TallyIsReduced(xs, key);
    GroupedMembers(xs, key);
  }

  /** The per-key counts add up to the number of records. */
  lemma {:induction false} TallyCounts<K>(xs: seq<PathRec>, key: PathRec -> K)
    ensures SumNat(Tally(xs, key), RowCount) == |xs|
  {
    if xs != [] {
      var init := xs[..|xs| - 1];
      var p := xs[|xs| - 1];
      TallyCounts(init, key);
      TalliedCount(Tally(init, key), key(p), SlackOf(p));
    }
  }

  /** One more record adds one to the counts. */
  lemma TalliedCount<K>(t: seq<(K, Stat)>, k: K, v: real)
    ensures SumNat(Tallied(t, k, v), RowCount) == SumNat(t, RowCount) + 1
  {
    match KeyIndex(t, k)
    case None =>
      SumNatAppend(t, [(k, Stat(1, v, v))], RowCount);
    case Some(i) =>
      var s := t[i].1;
      SumNatUpdate(t, i, (k, Stat(s.count + 1, if v < s.worst then v else s.worst, s.total + v)), RowCount);
  }

  /** The per-key slack sums add up to the total slack. */
  lemma {:induction false} TallyTotals<K>(xs: seq<PathRec>, key: PathRec -> K)
    ensures SumReal(Tally(xs, key), RowTotal) == Tns(xs)
  {
    if xs != [] {
      var init := xs[..|xs| - 1];
      var p := xs[|xs| - 1];
      TallyTotals(init, key);
      assert xs == init + [p];
      SumRealAppend(init, [p], SlackOf);
      TalliedTotal(Tally(init, key), key(p), SlackOf(p));
    }
  }

  /** One more record adds its slack to the sums. */
  lemma TalliedTotal<K>(t: seq<(K, Stat)>, k: K, v: real)
    ensures SumReal(Tallied(t, k, v), RowTotal) == SumReal(t, RowTotal) + v
  {
    match KeyIndex(t, k)
    case None =>
      SumRealAppend(t, [(k, Stat(1, v, v))], RowTotal);
    case Some(i) =>
      var s := t[i].1;
      SumRealUpdate(t, i, (k, Stat(s.count + 1, if v < s.worst then v else s.worst, s.total + v)), RowTotal);
  }

  /** The least of the per-key worst slacks is the overall worst slack. */
  lemma TallyWorst<K>(xs: seq<PathRec>, key: PathRec -> K)
    requires xs != []
    ensures Tally(xs, key) != [] && MinReal(Tally(xs, key), RowWorst) == Wns(xs)
  {
    var t := Tally(xs, key);
    RowsNotBelow(xs, key);
    var j := RowAttains(xs, key);
    MinRealIs(t, RowWorst, Wns(xs));
  }

  /** No key's worst slack is below the overall worst slack. */
  lemma RowsNotBelow<K>(xs: seq<PathRec>, key: PathRec -> K)
    ensures var t := Tally(xs, key);
      forall j :: 0 <= j < |t| ==> Wns(xs) <= RowWorst(t[j])
  {
    TallyIsReduced(xs, key);
    GroupedMembers(xs, key);
    var g := Grouped(xs, key);
    var t := Tally(xs, key);
    forall j | 0 <= j < |t| ensures Wns(xs) <= RowWorst(t[j]) {
      var m := g[j].1;
      assert RowWorst(t[j]) == Wns(m);
      var w :| 0 <= w < |m| && Wns(m) == SlackOf(m[w]);
      MembersIn(xs, key, g[j].0, w);
    }
  }

  /** The row of the key of a record with the worst slack holds that slack. */
  lemma RowAttains<K>(xs: seq<PathRec>, key: PathRec -> K) returns (j: nat)
    requires xs != []
    ensures var t := Tally(xs, key);
      j < |t| && RowWorst(t[j]) <= Wns(xs)
  {
    TallyIsReduced(xs, key);
    GroupedMembers(xs, key);
    var g := Grouped(xs, key);
    var i :| 0 <= i < |xs| && Wns(xs) == SlackOf(xs[i]);
    MembersHasAt(xs, key, i);
    j := KeyIndex(g, key(xs[i])).value;
    var w :| 0 <= w < |g[j].1| && g[j].1[w] == xs[i];
    assert Wns(g[j].1) <= SlackOf(g[j].1[w]);
  }

  /** Every record is among the members of its own key. */
  lemma {:induction false} MembersHas<K>(xs: seq<PathRec>, key: PathRec -> K, i: nat)
    requires i < |xs|
    ensures |Members(xs, key, key(xs[i]))| > 0
  {
    MembersHasAt(xs, key, i);
  }

  lemma {:induction false} MembersHasAt<K>(xs: seq<PathRec>, key: PathRec -> K, i: nat)
    requires i < |xs|
    ensures exists w :: 0 <= w < |Members(xs, key, key(xs[i]))| && Members(xs, key, key(xs[i]))[w] == xs[i]
  {
    var init := xs[..|xs| - 1];
    if i < |xs| - 1 {
      MembersHasAt(init, key, i);
      var w :| 0 <= w < |Members(init, key, key(xs[i]))| && Members(init, key, key(xs[i]))[w] == xs[i];
      assert Members(xs, key, key(xs[i]))[w] == xs[i];
    } else {
      var m := Members(xs, key, key(xs[i]));
      assert m[|m| - 1] == xs[i];
    }
  }

  /** The members of a key are records of xs. */
  lemma {:induction false} MembersIn<K>(xs: seq<PathRec>, key: PathRec -> K, k: K, w: nat)
    requires w < |Members(xs, key, k)|
    ensures exists i :: 0 <= i < |xs| && xs[i] == Members(xs, key, k)[w]
  {
    var init := xs[..|xs| - 1];
    if w < |Members(init, key, k)| {
      MembersIn(init, key, k, w);
      var i :| 0 <= i < |init| && init[i] == Members(init, key, k)[w];
      assert xs[i] == init[i];
    } else {
      assert Members(xs, key, k)[w] == xs[|xs| - 1];
    }
  }

  /** The loop filling `by_start`. */
  method GroupBy<K(==)>(xs: seq<PathRec>, key: PathRec -> K) returns (d: seq<(K, seq<PathRec>)>)
    ensures d == Grouped(xs, key)
  {
    d := [];
    var i := 0;
    while i < |xs|
      invariant 0 <= i <= |xs|
      invariant d == Grouped(xs[..i], key)
    {
      assert xs[..i + 1][..i] == xs[..i];
      var k := key(xs[i]);
      match KeyIndex(d, k) {
        case None =>
          d := d + [(k, [xs[i]])];
        case Some(j) =>
          d := d[j := (k, d[j].1 + [xs[i]])];
      }
      i := i + 1;
    }
    assert xs[..i] == xs;
  }

  // ---------------------------------------------------------------------
  // Keys of the tables and their print order
  // ---------------------------------------------------------------------

  /** The key of the path-group table: `p.path_group`. */
  function GroupKey(p: PathRec): string
  {
    p.pathGroup
  }

  /** The key of the clock table: `(p.start_clk, p.end_clk)`. */
  function ClockKey(p: PathRec): (string, string)
  {
    (p.startClk, p.endClk)
  }

  /** The key of the block table: the top blocks of the start and end instances. */
  function BlockKey(p: PathRec, rules: seq<Rule>): (string, string)
  {
    (TopBlock(p.startInst, rules), TopBlock(p.endInst, rules))
  }

  /** The block key under a fixed block map. */
  function BlockKeyOf(rules: seq<Rule>): PathRec -> (string, string)
  {
    p => BlockKey(p, rules)
  }

  /** `p.stage_count or 0` */
  function StageOr0(p: PathRec): nat
  {
    if p.stageCount.Some? then p.stageCount.value else 0
  }

  predicate HasStage(p: PathRec)
  {
    p.stageCount.Some?
  }

  /** Python's order on `str` keys. */
  predicate NameRowLe(a: (string, Stat), b: (string, Stat))
  {
    StrLe(a.0, b.0)
  }

  /** Python's order on `(str, str)` keys: by the first, then by the second. */
  predicate PairRowLe(a: ((string, string), Stat), b: ((string, string), Stat))
  {
    StrLt(a.0.0, b.0.0) || (a.0.0 == b.0.0 && StrLe(a.0.1, b.0.1))
  }

  /** Python's order on `int` keys. */
  predicate StageRowLe(a: (nat, Stat), b: (nat, Stat))
  {
    a.0 <= b.0
  }

  lemma NameRowLeTotal()
    ensures TotalPreorder(NameRowLe)
  {
    StrOrder();
  }

  lemma PairRowLeTotal()
    ensures TotalPreorder(PairRowLe)
  {
    StrOrder();
  }

  lemma StageRowLeTotal()
    ensures TotalPreorder(StageRowLe)
  {
  }

  // ---------------------------------------------------------------------
  // The detail listing grouped by startpoint
  // ---------------------------------------------------------------------

  /** `p.start_pin or (p.start_inst + "/CP")`: an empty pin counts as none. */
  function StartKey(p: PathRec): string
  {
    if p.startPin.Some? && p.startPin.value != "" then p.startPin.value else p.startInst + "/CP"
  }

  /** `next((p.start_clk_delay for p in plist if ... is not None), 0.0)` */
  function FirstStartDelay(ps: seq<PathRec>): (d: real)
    ensures (exists i :: 0 <= i < |ps| && ps[i].startClkDelay.Some?) ==>
      exists i :: 0 <= i < |ps| && ps[i].startClkDelay == Some(d) && forall j :: 0 <= j < i ==> ps[j].startClkDelay.None?
    ensures (forall i :: 0 <= i < |ps| ==> ps[i].startClkDelay.None?) ==> d == 0.0
  {
    if ps == [] then 0.0
    else if ps[0].startClkDelay.Some? then ps[0].startClkDelay.value
    else
      var d := FirstStartDelay(ps[1..]);
      assert forall i :: 1 <= i < |ps| ==> ps[i] == ps[1..][i - 1];
      if exists i :: 0 <= i < |ps| && ps[i].startClkDelay.Some? then
        var i :| 0 <= i < |ps| && ps[i].startClkDelay.Some?;
        assert ps[1..][i - 1].startClkDelay.Some?;
        d
      else d
  }

  /** One entry of `start_summary`: `(len(plist), sp, worst, max_stage, scd, plist)`. */
  datatype StartRow = StartRow(count: nat, start: string, worst: real, maxStage: nat, startDelay: real, paths: seq<PathRec>)

  function StartRowOf(sp: string, plist: seq<PathRec>): StartRow
  {
    StartRow(|plist|, sp, Wns(plist), if plist == [] then 0 else MaxNat(plist, StageOr0), FirstStartDelay(plist), plist)
  }

  /** The rows of `start_summary`, one per startpoint in first-seen order, before sorting. */
  function StartRows(g: seq<(string, seq<PathRec>)>): (rows: seq<StartRow>)
    ensures |rows| == |g| && forall j :: 0 <= j < |g| ==> rows[j] == StartRowOf(g[j].0, g[j].1)
  {
    if g == [] then [] else StartRows(g[..|g| - 1]) + [StartRowOf(g[|g| - 1].0, g[|g| - 1].1)]
  }

  /** The loop over `by_start.items()` that fills `start_summary`. */
  method CollectStartRows(g: seq<(string, seq<PathRec>)>) returns (rows: seq<StartRow>)
    ensures rows == StartRows(g)
  {
    rows := [];
    var i := 0;
    while i < |g|
      invariant 0 <= i <= |g|
      invariant rows == StartRows(g[..i])
    {
      StartRowsStep(g, i);
      rows := rows + [StartRowOf(g[i].0, g[i].1)];
      i := i + 1;
    }
    assert g[..i] == g;
  }

  lemma StartRowsStep(g: seq<(string, seq<PathRec>)>, i: nat)
    requires i < |g|
    ensures StartRows(g[..i + 1]) == StartRows(g[..i]) + [StartRowOf(g[i].0, g[i].1)]
  {
    assert g[..i + 1][..i] == g[..i];
  }

  /** The sort key `(-count, worst)`: most violations first, then the worst slack. */
  predicate DetailLe(a: StartRow, b: StartRow)
  {
    a.count > b.count || (a.count == b.count && a.worst <= b.worst)
  }

  lemma DetailLeTotal()
    ensures TotalPreorder(DetailLe)
  {
  }

  /** The endpoints of one startpoint: sorted by slack, a missing slack counting as 0.0. */
  predicate EndpointLe(a: PathRec, b: PathRec)
  {
    SlackOf(a) <= SlackOf(b)
  }

  lemma EndpointLeTotal()
    ensures TotalPreorder(EndpointLe)
  {
  }

  function Endpoints(row: StartRow): seq<PathRec>
  {
    SortBy(row.paths, EndpointLe)
  }

  /** The listed endpoints of a startpoint are its paths, worst slack first. */
  lemma EndpointsOrdered(row: StartRow)
    ensures SortedBy(Endpoints(row), EndpointLe) && multiset(Endpoints(row)) == multiset(row.paths)
  {
    EndpointLeTotal();
    SortBySorted(row.paths, EndpointLe);
  }

  // ---------------------------------------------------------------------
  // Histogram rows
  // ---------------------------------------------------------------------

  /** The slack of each record, in order. */
  function Slacks(xs: seq<PathRec>): (vs: seq<real>)
    ensures |vs| == |xs| && forall i :: 0 <= i < |xs| ==> vs[i] == SlackOf(xs[i])
  {
    seq(|xs|, i requires 0 <= i < |xs| => SlackOf(xs[i]))
  }

  predicate HasSkew(p: PathRec)
  {
    p.Skew().Some?
  }

  /** `p.skew()` of each record that has one, in order. */
  function Skews(xs: seq<PathRec>): (vs: seq<real>)
  {
    var ys := Filter(xs, HasSkew);
    seq(|ys|, i requires 0 <= i < |ys| => ys[i].Skew().value)
  }

  /** The count of a histogram row. */
  function RowNat(e: (string, nat)): nat { e.1 }

  /** One printed row per bin: the label and `hist.get(label, 0)`. */
  function HistRows(labels: seq<string>, bins: seq<Bin>): (rows: seq<(string, nat)>)
    ensures |rows| == |bins|
    ensures forall i :: 0 <= i < |bins| ==> rows[i] == (bins[i].name, Occurrences(labels, bins[i].name))
  {
    if bins == [] then [] else [(bins[0].name, Occurrences(labels, bins[0].name))] + HistRows(labels, bins[1..])
  }

  lemma {:induction false} HistRowsPrinted(labels: seq<string>, bins: seq<Bin>)
    ensures SumNat(HistRows(labels, bins), RowNat) == Printed(labels, bins)
  {
    if bins != [] {
      HistRowsPrinted(labels, bins[1..]);
      assert HistRows(labels, bins)[1..] == HistRows(labels, bins[1..]);
    }
  }

  // ---------------------------------------------------------------------
  // The whole summary
  // ---------------------------------------------------------------------

  /** Everything `emit_summary` prints, before it is laid out as text. */
  datatype Summary = Summary(
    total: nat,
    wns: real,
    tns: real,
    slackRows: seq<(string, nat)>,
    skewRows: seq<(string, nat)>,
    groupRows: seq<(string, Stat)>,
    clockRows: seq<((string, string), Stat)>,
    blockRows: seq<((string, string), Stat)>,
    stageRows: seq<(nat, Stat)>,
    starts: seq<StartRow>)

  /** `emit_summary` on the records and the block map, as values, with the slack bins as the source builds them. */
  function Summarize(paths: seq<PathRec>, rules: seq<Rule>): Summary
  {
    var neg := Violations(paths);
    Summary(
      |neg|,
      Wns(neg),
      Tns(neg),
      SlackRows(neg),
      HistRows(Labels(Skews(neg), SkewBins(), LinearHit), SkewBins()),
      SortBy(Tally(neg, GroupKey), NameRowLe),
      SortBy(Tally(neg, ClockKey), PairRowLe),
      SortBy(Tally(neg, BlockKeyOf(rules)), PairRowLe),
      SortBy(Tally(Filter(neg, HasStage), StageOr0), StageRowLe),
      SortBy(StartRows(Grouped(neg, StartKey)), DetailLe))
  }

  /** The body of `emit_summary` up to the printing: the filter, the loops over `neg`, and the sorts. */
  method EmitSummary(paths: seq<PathRec>, rules: seq<Rule>) returns (s: Summary)
    ensures s == Summarize(paths, rules)
  {
    var neg := Violations(paths);
    var slackBins := MakeSlackBins();
    var slackRows := HistRows(Labels(Slacks(neg), slackBins, DescHit), slackBins);
    var skewRows := HistRows(Labels(Skews(neg), SkewBins(), LinearHit), SkewBins());
    var groups := TallyBy(neg, GroupKey);
    var clocks := TallyBy(neg, ClockKey);
    var blocks := TallyBy(neg, BlockKeyOf(rules));
    var stages := TallyBy(Filter(neg, HasStage), StageOr0);
    var byStart := GroupBy(neg, StartKey);
    var starts := CollectStartRows(byStart);
    s := Summary(|neg|, Wns(neg), Tns(neg), slackRows, skewRows,
      SortBy(groups, NameRowLe), SortBy(clocks, PairRowLe), SortBy(blocks, PairRowLe),
      SortBy(stages, StageRowLe), SortBy(starts, DetailLe));
  }

  /** The summary with the last slack bin corrected to "at most -5.0". */
  function CorrectedSummary(paths: seq<PathRec>, rules: seq<Rule>): Summary
  {
    var neg := Violations(paths);
    Summarize(paths, rules).(slackRows := CorrectedSlackRows(neg))
  }

  // ---------------------------------------------------------------------
  // What the summary promises
  // ---------------------------------------------------------------------

  lemma {:induction false} SumNatPointwise<T, U>(a: seq<T>, f: T -> nat, b: seq<U>, g: U -> nat)
    requires |a| == |b| && forall i :: 0 <= i < |a| ==> f(a[i]) == g(b[i])
    ensures SumNat(a, f) == SumNat(b, g)
  {
    if a != [] {
      SumNatPointwise(a[1..], f, b[1..], g);
    }
  }

  /**
   * A printed table, in key order, holds every violation once: its counts
   * add up to their number, its total slacks to their total slack, and its
   * least worst slack is the overall worst slack.
   */
  lemma TableAgrees<K>(xs: seq<PathRec>, key: PathRec -> K, le: ((K, Stat), (K, Stat)) -> bool)
    ensures var rows := SortBy(Tally(xs, key), le);
      SumNat(rows, RowCount) == |xs|
      && SumReal(rows, RowTotal) == Tns(xs)
      && (xs != [] ==> rows != [] && MinReal(rows, RowWorst) == Wns(xs))
  {
    TallyCounts(xs, key);
    TallyTotals(xs, key);
    SortBySums(Tally(xs, key), le, RowTotal, RowCount);
    if xs != [] {
      TallyWorst(xs, key);
      SortByMin(Tally(xs, key), le, RowWorst);
    }
  }

  /** A printed table lists its keys in Python's order. */
  lemma TableSorted<K(!new)>(xs: seq<PathRec>, key: PathRec -> K, le: ((K, Stat), (K, Stat)) -> bool)
    requires TotalPreorder(le)
    ensures SortedBy(SortBy(Tally(xs, key), le), le)
    ensures DistinctKeys(Tally(xs, key)) && multiset(SortBy(Tally(xs, key), le)) == multiset(Tally(xs, key))
  {
    SortBySorted(Tally(xs, key), le);
    TallyDistinct(xs, key);
  }

  function StartCount(r: StartRow): nat { r.count }

  /**
   * The detail listing: one row per startpoint, most violations first and
   * then the worst slack; each row holds exactly the violations of its
   * startpoint, in report order, with their count and worst slack; the
   * counts add up to the number of violations.
   */
  lemma StartSummaryRows(neg: seq<PathRec>)
    ensures var rows := SortBy(StartRows(Grouped(neg, StartKey)), DetailLe);
      SortedBy(rows, DetailLe)
      && (forall j :: 0 <= j < |rows| ==>
            rows[j].paths == Members(neg, StartKey, rows[j].start)
            && rows[j].count == |rows[j].paths| > 0
            && rows[j].worst == Wns(rows[j].paths))
      && SumNat(rows, StartCount) == |neg|
  {
    var g := Grouped(neg, StartKey);
    var unsorted := StartRows(g);
    var rows := SortBy(unsorted, DetailLe);
    DetailLeTotal();
    SortBySorted(unsorted, DetailLe);
    GroupedMembers(neg, StartKey);
    forall j | 0 <= j < |rows|
      ensures rows[j].paths == Members(neg, StartKey, rows[j].start) && rows[j].count == |rows[j].paths| > 0
        && rows[j].worst == Wns(rows[j].paths)
    {
      assert rows[j] in multiset(unsorted);
      var i :| 0 <= i < |unsorted| && unsorted[i] == rows[j];
    }
    SortBySums(unsorted, DetailLe, (r: StartRow) => r.worst, StartCount);
    TallyIsReduced(neg, StartKey);
    TallyCounts(neg, StartKey);
    SumNatPointwise(unsorted, StartCount, Tally(neg, StartKey), RowCount);
  }

  /** The slack rows as `emit_summary` prints them, over `make_slack_bins` as the source builds it. */
  function SlackRows(neg: seq<PathRec>): seq<(string, nat)>
  {
    HistRows(Labels(Slacks(neg), SlackBinsAsWritten(), DescHit), SlackBinsAsWritten())
  }

  /** The slack rows with the last bin corrected to "at most -5.0". */
  function CorrectedSlackRows(neg: seq<PathRec>): seq<(string, nat)>
  {
    HistRows(Labels(Slacks(neg), SlackBins(), DescHit), SlackBins())
  }

  /**
   * The printed slack histogram leaves out the violations at or below
   * -5.0: its rows add up to the printed total less their number.
   */
  lemma SlackRowsTotal(paths: seq<PathRec>)
    ensures var neg := Violations(paths);
      SumNat(SlackRows(neg), RowNat) == |neg| - CountAtMost(Slacks(neg), -5.0)
  {
    var vs := Slacks(Violations(paths));
    HistRowsPrinted(Labels(vs, SlackBinsAsWritten(), DescHit), SlackBinsAsWritten());
    AsWrittenHistogramTotal(vs);
  }

  /** So the printed rows fall short of the printed total as soon as one violation is that deep. */
  lemma DeepViolationUnprinted(paths: seq<PathRec>, i: nat)
    requires var neg := Violations(paths); i < |neg| && SlackOf(neg[i]) <= -5.0
    ensures SumNat(SlackRows(Violations(paths)), RowNat) < |Violations(paths)|
  {
    var neg := Violations(paths);
    SlackRowsTotal(paths);
    assert Slacks(neg)[i] <= -5.0;
    CountAtMostPositive(Slacks(neg), -5.0, i);
  }

  /** With the last slack bin corrected, the slack histogram accounts for every violation. */
  lemma CorrectedSlackRowsTotal(paths: seq<PathRec>)
    ensures var neg := Violations(paths);
      SumNat(CorrectedSlackRows(neg), RowNat) == |neg|
  {
    var neg := Violations(paths);
    var vs := Slacks(neg);
    HistRowsPrinted(Labels(vs, SlackBins(), DescHit), SlackBins());
    SlackHistogramTotal(vs);
  }

  /** The skew histogram accounts for every violation whose skew is defined. */
  lemma SkewRowsTotal(paths: seq<PathRec>)
    ensures var neg := Violations(paths);
      SumNat(HistRows(Labels(Skews(neg), SkewBins(), LinearHit), SkewBins()), RowNat) == |Filter(neg, HasSkew)|
  {
    var vs := Skews(Violations(paths));
    HistRowsPrinted(Labels(vs, SkewBins(), LinearHit), SkewBins());
    SkewHistogramTotal(vs);
  }
}
