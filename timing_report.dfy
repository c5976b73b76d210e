/**
 * `emit_summary` of `pt_timing_summary.py`: the overall block read from the
 * "ALL" entry, the path types in sorted order, and the per-group table,
 * one fixed-width row per group in sorted key order with "ALL" skipped.
 * The `.3f` rendering of a float is the parameter `fmt`.
 */
module TimingReport {
  import opened Text
  import opened Collections
  import opened TimingSummary

  /** `format_float`: "n/a" when there is no value. */
  function FormatFloat(v: Option<real>, fmt: real -> string): string
  {
    match v
    case None => "n/a"
    case Some(x) => fmt(x)
  }

  /** `c * n` for a one-character string c. */
  function Repeat(c: char, n: nat): (r: string)
    ensures |r| == n && forall i :: 0 <= i < n ==> r[i] == c
  {
    seq(n, _ => c)
  }

  /** `s[:n]` */
  function Prefix(s: string, n: nat): (r: string)
    ensures |r| == if |s| <= n then |s| else n
    ensures StartsWith(s, r)
  {
    if |s| <= n then s else s[..n]
  }

  /** `"{:<24} {:>8} {:>10} {:>12} {:>11} {:>11}".format(...)` */
  function TableLine(name: string, paths: string, wns: string, tns: string, violations: string, best: string): string
  {
    LJust(name, 24) + " " + Cells(paths, wns, tns, violations, best)
  }

  /** The right-aligned columns of a table line. */
  function Cells(paths: string, wns: string, tns: string, violations: string, best: string): string
  {
    RJust(paths, 8) + " " + RJust(wns, 10) + " " + RJust(tns, 12) + " " + RJust(violations, 11) + " " + RJust(best, 11)
  }

  /** The table row of one group. */
  function GroupLine(e: (string, Counts), fmt: real -> string): string
  {
    var vs := e.1.slackValues;
    TableLine(Prefix(e.0, 24), NatStr(Resolved(e.1)), FormatFloat(Worst(vs), fmt),
      FormatFloat(Some(Tns(vs)), fmt), NatStr(Violations(vs)), FormatFloat(Best(vs), fmt))
  }

  /** A group's row starts with its name cut to 24 characters and padded to 24, then a blank. */
  lemma GroupLineColumns(e: (string, Counts), fmt: real -> string)
    ensures |GroupLine(e, fmt)| > 24
    ensures GroupLine(e, fmt)[..24] == LJust(Prefix(e.0, 24), 24)
    ensures GroupLine(e, fmt)[24] == ' '
    ensures StartsWith(e.0, Prefix(e.0, 24)) && |Prefix(e.0, 24)| == if |e.0| <= 24 then |e.0| else 24
  {
    var vs := e.1.slackValues;
    NameColumn(LJust(Prefix(e.0, 24), 24), Cells(NatStr(Resolved(e.1)), FormatFloat(Worst(vs), fmt),
      FormatFloat(Some(Tns(vs)), fmt), NatStr(Violations(vs)), FormatFloat(Best(vs), fmt)));
  }

  lemma NameColumn(name: string, cells: string)
    requires |name| == 24
    ensures (name + " " + cells)[..24] == name && (name + " " + cells)[24] == ' ' && |name + " " + cells| > 24
  {
    assert (name + " " + cells)[..24] == name;
  }

  /** One line of the path-type list. */
  function TypeLine(e: (string, nat)): string
  {
    "  - " + e.0 + ": " + NatStr(e.1)
  }

  /** Python's ordering of `(str, int)` tuples. */
  predicate TypeLe(a: (string, nat), b: (string, nat))
  {
    StrLt(a.0, b.0) || (a.0 == b.0 && a.1 <= b.1)
  }

  /** Python's ordering of dict items with distinct keys: by key. */
  predicate EntryLe(a: (string, Counts), b: (string, Counts))
  {
    StrLe(a.0, b.0)
  }

  predicate NotAll(e: (string, Counts))
  {
    e.0 != "ALL"
  }

  lemma TypeLeTotal()
    ensures TotalPreorder(TypeLe)
  {
    StrOrder();
  }

  lemma EntryLeTotal()
    ensures TotalPreorder(EntryLe)
  {
    StrOrder();
  }

  /** The entries the per-group loop prints: `sorted(stats.items())`, skipping "ALL". */
  function GroupTable(stats: seq<(string, Counts)>): seq<(string, Counts)>
  {
    Filter(SortBy(stats, EntryLe), NotAll)
  }

  /** The group table is sorted by key and holds every entry except "ALL", each as often as the dict does. */
  lemma GroupTableRows(stats: seq<(string, Counts)>)
    ensures SortedBy(GroupTable(stats), EntryLe)
    ensures forall e :: multiset(GroupTable(stats))[e] == if e.0 == "ALL" then 0 else multiset(stats)[e]
  {
    EntryLeTotal();
    SortBySorted(stats, EntryLe);
    FilterSorted(SortBy(stats, EntryLe), NotAll, EntryLe);
    forall e ensures multiset(GroupTable(stats))[e] == if e.0 == "ALL" then 0 else multiset(stats)[e] {
      FilterCount(SortBy(stats, EntryLe), NotAll, e);
    }
  }

  /** The path types in the order they are listed, sorted and a permutation of the dict. */
  lemma TypeListSorted(types: seq<(string, nat)>)
    ensures SortedBy(SortBy(types, TypeLe), TypeLe)
    ensures multiset(SortBy(types, TypeLe)) == multiset(types)
  {
    TypeLeTotal();
    SortBySorted(types, TypeLe);
  }

  /** One line per element, in order. */
  function Rows<T>(xs: seq<T>, line: T -> string): (r: seq<string>)
    ensures |r| == |xs| && forall i :: 0 <= i < |xs| ==> r[i] == line(xs[i])
  {
    if xs == [] then [] else Rows(xs[..|xs| - 1], line) + [line(xs[|xs| - 1])]
  }

  /** The row renderer of the per-group table. */
  function RowOf(fmt: real -> string): ((string, Counts)) -> string
  {
    e => GroupLine(e, fmt)
  }

  /** The overall block, read from the "ALL" entry. */
  function Overall(overall: Counts, fmt: real -> string): seq<string>
  {
    var vs := overall.slackValues;
    ["Summary", Repeat('=', 7),
     "Total paths: " + NatStr(Resolved(overall)),
     "Worst slack (WNS): " + FormatFloat(Worst(vs), fmt),
     "Total negative slack (TNS): " + FormatFloat(Some(Tns(vs)), fmt),
     "Violations: " + NatStr(Violations(vs)),
     "Best slack: " + FormatFloat(Best(vs), fmt)]
  }

  /** "Path types:" and one line per type, only when some type was seen. */
  function TypeSection(types: seq<(string, nat)>): seq<string>
  {
    if types == [] then [] else ["Path types:"] + Rows(SortBy(types, TypeLe), TypeLine)
  }

  /** The blank line, the heading and the column header of the per-group table. */
  function TableHead(): seq<string>
  {
    ["", "Per Path Group", Repeat('-', 14),
     TableLine("Group", "Paths", "WNS", "TNS", "Violations", "Best"), Repeat('-', 80)]
  }

  /** The lines `emit_summary` joins. */
  function SummaryLines(stats: seq<(string, Counts)>, fmt: real -> string): seq<string>
    requires KeyIndex(stats, "ALL").Some?
  {
    var overall := stats[KeyIndex(stats, "ALL").value].1;
    Overall(overall, fmt) + TypeSection(overall.pathTypes) + TableHead() + Rows(GroupTable(stats), RowOf(fmt))
  }

  /** The overall block, the path types and the table heading, whose last line is the rule of 80 dashes. */
  lemma HeadShape(overall: Counts, fmt: real -> string)
    ensures var head := Overall(overall, fmt) + TypeSection(overall.pathTypes) + TableHead();
      |head| == 12 + (if overall.pathTypes == [] then 0 else 1 + |overall.pathTypes|)
      && head[|head| - 1] == Repeat('-', 80)
  {
    TypeListSorted(overall.pathTypes);
    assert |SortBy(overall.pathTypes, TypeLe)| == |overall.pathTypes| by {
      assert |multiset(SortBy(overall.pathTypes, TypeLe))| == |multiset(overall.pathTypes)|;
    }
  }

  lemma TwoParts(a: seq<string>, d: seq<string>)
    ensures (a + d)[|a|..] == d
  {
  }

  /**
   * Below the overall block, the path types and the table heading (whose
   * last line is the rule of 80 dashes), the summary ends with one row per
   * entry of the group table, in its order.
   */
  lemma SummaryEndsWithTable(stats: seq<(string, Counts)>, fmt: real -> string)
    requires KeyIndex(stats, "ALL").Some?
    ensures var types := stats[KeyIndex(stats, "ALL").value].1.pathTypes;
      var top := 12 + (if types == [] then 0 else 1 + |types|);
      var lines := SummaryLines(stats, fmt);
      |lines| == top + |GroupTable(stats)| && lines[top..] == Rows(GroupTable(stats), RowOf(fmt))
      && lines[top - 1] == Repeat('-', 80)
  {
    var overall := stats[KeyIndex(stats, "ALL").value].1;
    HeadShape(overall, fmt);
    TwoParts(Overall(overall, fmt) + TypeSection(overall.pathTypes) + TableHead(), Rows(GroupTable(stats), RowOf(fmt)));
  }

  lemma RowsSnoc<T>(xs: seq<T>, x: T, line: T -> string)
    ensures Rows(xs + [x], line) == Rows(xs, line) + [line(x)]
  {
    assert (xs + [x])[..|xs|] == xs;
  }

  /** A printing loop: one line appended per element, in order. */
  method AppendRows<T>(lines: seq<string>, xs: seq<T>, line: T -> string) returns (out: seq<string>)
    ensures out == lines + Rows(xs, line)
  {
    out := lines;
    for i := 0 to |xs|
      invariant out == lines + Rows(xs[..i], line)
    {
      assert xs[..i + 1] == xs[..i] + [xs[i]];
      RowsSnoc(xs[..i], xs[i], line);
      out := out + [line(xs[i])];
    }
    assert xs[..|xs|] == xs;
  }

  /** A printing loop that skips the elements `keep` rejects. */
  method AppendKept<T>(lines: seq<string>, xs: seq<T>, keep: T -> bool, line: T -> string) returns (out: seq<string>)
    ensures out == lines + Rows(Filter(xs, keep), line)
  {
    out := lines;
    for i := 0 to |xs|
      invariant out == lines + Rows(Filter(xs[..i], keep), line)
    {
      KeptStep(lines, xs, keep, line, i);
      if keep(xs[i]) {
        out := out + [line(xs[i])];
      }
    }
    assert xs[..|xs|] == xs;
  }

  lemma KeptStep<T>(lines: seq<string>, xs: seq<T>, keep: T -> bool, line: T -> string, i: nat)
    requires i < |xs|
    ensures lines + Rows(Filter(xs[..i + 1], keep), line)
      == lines + Rows(Filter(xs[..i], keep), line) + (if keep(xs[i]) then [line(xs[i])] else [])
  {
    assert xs[..i + 1][..i] == xs[..i];
    var f := Filter(xs[..i], keep);
    assert Filter(xs[..i + 1], keep) == f + (if keep(xs[i]) then [xs[i]] else []);
    if keep(xs[i]) {
      RowsSnoc(f, xs[i], line);
      ConcatAssoc(lines, Rows(f, line), [line(xs[i])]);
    } else {
      assert f + [] == f;
    }
  }

  /** `emit_summary`: the lines appended block by block, then joined with newlines. */
  method EmitSummary(stats: seq<(string, Counts)>, fmt: real -> string) returns (text: string)
    requires KeyIndex(stats, "ALL").Some?
    ensures text == Join(SummaryLines(stats, fmt), "\n")
  {
    var overall := stats[KeyIndex(stats, "ALL").value].1;
    var lines := Overall(overall, fmt);
    if overall.pathTypes != [] {
      var types := AppendRows(["Path types:"], SortBy(overall.pathTypes, TypeLe), TypeLine);
      lines := lines + types;
    }
    assert lines == Overall(overall, fmt) + TypeSection(overall.pathTypes);
    lines := lines + TableHead();
    lines := AppendKept(lines, SortBy(stats, EntryLe), NotAll, RowOf(fmt));
    assert lines == SummaryLines(stats, fmt);
    text := Join(lines, "\n");
  }
}
