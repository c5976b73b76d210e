/**
 * Block names for the startpoint/endpoint block table: a prefix map built
 * from `--block-map prefix=name` entries and block-map file lines, sorted
 * longest prefix first, and the resolver that picks the first matching
 * rule or else the first hierarchy level of the instance path.
 */
module PtBlocks {
  import opened Text
  import opened Collections

  /** A mapping entry `(prefix, name)`. */
  datatype Rule = Rule(prefix: string, name: string)

  /** The `ValueError`s the map parsers raise, with the offending text. */
  datatype MapError = BadEntry(entry: string) | BadLine(line: string)

  // ---------------------------------------------------------------------
  // _normalize_prefix and top_block
  // ---------------------------------------------------------------------

  /** `_normalize_prefix`: strip, and treat a non-empty prefix as a hierarchy prefix ending in '/'. */
  function NormalizePrefix(p: string): (r: string)
    ensures r == [] <==> Strip(p) == []
    ensures r != [] ==> EndsWith(r, "/") && StartsWith(r, Strip(p)) && |r| <= |Strip(p)| + 1
    ensures Strip(p) != [] && EndsWith(Strip(p), "/") ==> r == Strip(p)
    ensures Strip(p) != [] && !EndsWith(Strip(p), "/") ==> r == Strip(p) + "/"
  {
    var t := Strip(p);
    if t == [] then t else if EndsWith(t, "/") then t else t + "/"
  }

  lemma NormalizePrefixIdempotent(p: string)
    ensures NormalizePrefix(NormalizePrefix(p)) == NormalizePrefix(p)
  {
    var r := NormalizePrefix(p);
    if r != [] {
      assert r[0] == Strip(p)[0];
      StripUnchanged(r);
    }
  }

  /** `inst.split("/", 1)[0] if "/" in inst else inst`: the first hierarchy level. */
  function FirstLevel(inst: string): (r: string)
    ensures StartsWith(inst, r) && '/' !in r
    ensures r == inst || inst[|r|] == '/'
  {
    match IndexOf(inst, '/')
    case Some(i) => inst[..i]
    case None => inst
  }

  /** The loop over the prefix map: the first rule whose prefix starts inst. */
  function MatchIndex(inst: string, rules: seq<Rule>): (r: Option<nat>)
    ensures r.Some? ==> r.value < |rules| && StartsWith(inst, rules[r.value].prefix)
    ensures r.Some? ==> forall j :: 0 <= j < r.value ==> !StartsWith(inst, rules[j].prefix)
    ensures r.None? ==> forall j :: 0 <= j < |rules| ==> !StartsWith(inst, rules[j].prefix)
  {
    if rules == [] then None
    else if StartsWith(inst, rules[0].prefix) then Some(0)
    else match MatchIndex(inst, rules[1..])
      case None => None
      case Some(i) => Some(i + 1)
  }

  /** `top_block` */
  function TopBlock(inst: string, rules: seq<Rule>): string
  {
    match MatchIndex(inst, rules)
    case Some(i) => rules[i].name
    case None => FirstLevel(inst)
  }

  /** The sort key of `_parse_block_map_args`: longer prefixes first. */
  predicate LongerFirst(a: Rule, b: Rule)
  {
    |a.prefix| >= |b.prefix|
  }

  lemma LongerFirstTotal()
    ensures TotalPreorder(LongerFirst)
  {
  }

  /**
   * On a prefix map sorted longest prefix first, `top_block` names a rule
   * whose prefix starts the instance and is at least as long as any other
   * matching prefix; with no match it is the first hierarchy level.
   */
  lemma TopBlockLongestMatch(inst: string, rules: seq<Rule>)
    requires SortedBy(rules, LongerFirst)
    ensures (exists i :: 0 <= i < |rules| && StartsWith(inst, rules[i].prefix) && TopBlock(inst, rules) == rules[i].name
               && forall j :: 0 <= j < |rules| && StartsWith(inst, rules[j].prefix) ==> |rules[j].prefix| <= |rules[i].prefix|)
            || ((forall j :: 0 <= j < |rules| ==> !StartsWith(inst, rules[j].prefix)) && TopBlock(inst, rules) == FirstLevel(inst))
  {
    match MatchIndex(inst, rules)
    case Some(i) =>
      forall j | 0 <= j < |rules| && StartsWith(inst, rules[j].prefix)
        ensures |rules[j].prefix| <= |rules[i].prefix|
      {
        if j > i {
          assert LongerFirst(rules[i], rules[j]);
        }
      }
    case None =>
  }

  // ---------------------------------------------------------------------
  // Entries, map-file lines, and the collected map
  // ---------------------------------------------------------------------

  /** One `--block-map prefix=name` entry, split at its first '='. */
  function ParseEntry(e: string): (r: Result<Rule, MapError>)
    ensures r.Failure? <==> '=' !in e
    ensures r.Failure? ==> r.error == BadEntry(e)
  {
    match IndexOf(e, '=')
    case None => Failure(BadEntry(e))
    case Some(i) => Success(Rule(NormalizePrefix(e[..i]), Strip(e[i + 1..])))
  }

  /** Writing an entry as `prefix=name` and parsing it gives the normalised rule back. */
  lemma ParseEntryRoundTrip(p: string, n: string)
    requires '=' !in p
    ensures ParseEntry(p + "=" + n) == Success(Rule(NormalizePrefix(p), Strip(n)))
  {
    var e := p + "=" + n;
    assert e[|p|] == '=';
    assert e[..|p|] == p && e[|p| + 1..] == n;
    assert IndexOf(e, '=').value == |p|;
  }

  datatype MapLine = Skip | Parsed(rule: Rule) | Malformed

  /** One line of a block-map file: `prefix -> name`, or `prefix name`, or blank, or a `#` comment. */
  function ParseMapLine(raw: string): MapLine
  {
    ParseStripped(Strip(raw))
  }

  /** The same, once the line is stripped. */
  function ParseStripped(line: string): MapLine
  {
    if line == [] || StartsWith(line, "#") then Skip else RuleLine(line)
  }

  /** A stripped line that is neither blank nor a comment: `->` form first, then the two-token form. */
  function RuleLine(line: string): MapLine
  {
    match Find(line, "->")
    case Some(i) => Parsed(Rule(NormalizePrefix(Strip(line[..i])), Strip(line[i + 2..])))
    case None =>
      // The tokens of `str.split()` have no whitespace left to strip.
      var parts := SplitWs(line);
      if |parts| < 2 then Malformed else Parsed(Rule(NormalizePrefix(parts[0]), parts[1]))
  }

  /** A line with no `->` and fewer than two tokens is rejected; blank lines and comments are skipped. */
  lemma MapLineCases(raw: string)
    ensures var line := Strip(raw);
      (ParseMapLine(raw) == Skip <==> line == [] || line[0] == '#')
      && (ParseMapLine(raw) == Malformed <==> line != [] && line[0] != '#' && !Contains(line, "->") && |SplitWs(line)| < 2)
  {
    StrippedCases(Strip(raw));
  }

  lemma StrippedCases(line: string)
    ensures ParseStripped(line) == Skip <==> line == [] || line[0] == '#'
    ensures ParseStripped(line) == Malformed <==> line != [] && line[0] != '#' && !Contains(line, "->") && |SplitWs(line)| < 2
  {
    if line != [] {
      assert StartsWith(line, "#") <==> line[0] == '#' by {
        assert line[..1] == [line[0]];
      }
    }
  }

  /** No `->` starts before the separator of `p -> n` when p contains none. */
  lemma NoArrowBefore(p: string, n: string, k: nat)
    requires !Contains(p, "->") && k <= |p|
    ensures !OccursAt(p + " -> " + n, "->", k)
  {
    var line := p + " -> " + n;
    assert !OccursAt(p, "->", k);
    if k + 1 < |p| {
      assert line[k] == p[k] && line[k + 1] == p[k + 1];
      assert line[k..][..2] == p[k..][..2];
    } else if k + 1 == |p| {
      assert line[k + 1] == ' ';
    } else {
      assert line[k] == ' ';
    }
  }

  /** In `p -> n` the first `->` is the separator when p contains none. */
  lemma ArrowAfterPrefix(p: string, n: string)
    requires !Contains(p, "->")
    ensures Find(p + " -> " + n, "->") == Some(|p| + 1)
  {
    var line := p + " -> " + n;
    assert OccursAt(line, "->", |p| + 1);
    forall k: nat | k <= |p|
      ensures !OccursAt(line, "->", k)
    {
      NoArrowBefore(p, n, k);
    }
    var i := Find(line, "->").value;
    assert line[i..][..2] == line[i..i + 2];
    assert OccursAt(line, "->", i);
  }

  /** A stripped, non-comment line with a `->` is split at its first `->`. */
  lemma ArrowLine(line: string, i: nat)
    requires line != [] && line[0] != '#' && Find(line, "->") == Some(i)
    ensures ParseStripped(line) == Parsed(Rule(NormalizePrefix(Strip(line[..i])), Strip(line[i + 2..])))
  {
    assert !StartsWith(line, "#");
    assert RuleLine(line) == Parsed(Rule(NormalizePrefix(Strip(line[..i])), Strip(line[i + 2..])));
  }

  /** Writing a rule as `prefix -> name` and parsing the line gives the rule back. */
  lemma MapLineRoundTrip(p: string, n: string)
    requires p != [] && n != [] && NoSpace(p) && NoSpace(n) && p[0] != '#' && !Contains(p, "->")
    ensures ParseMapLine(p + " -> " + n) == Parsed(Rule(NormalizePrefix(p), n))
  {
    var line := p + " -> " + n;
    var i := |p| + 1;
    SeparatorParts(p, n, line);
    LineStrips(p, n, line);
    ArrowAfterPrefix(p, n);
    ArrowLine(line, i);
    assert ParseMapLine(line) == ParseStripped(line);
  }

  /** A line of two words separated by whitespace and holding no `->` is
      read as prefix and name (lines 554-558). */
  lemma MapLineTwoTokens(p: string, gap: string, n: string)
    requires p != [] && n != [] && NoSpace(p) && NoSpace(n) && p[0] != '#'
    requires !Contains(p, "->") && !Contains(n, "->")
    requires gap != [] && forall i :: 0 <= i < |gap| ==> IsSpace(gap[i])
    ensures ParseMapLine(p + gap + n) == Parsed(Rule(NormalizePrefix(p), n))
  {
    var line := p + gap + n;
    TwoWordsStrip(p, gap, n, line);
    GapNoArrow(p, gap, n);
    TwoWordsSplit(p, gap, n, line);
    WordsLine(line, p, n);
    assert ParseMapLine(line) == ParseStripped(line);
  }

  lemma TwoWordsStrip(p: string, gap: string, n: string, line: string)
    requires p != [] && n != [] && NoSpace(p) && NoSpace(n) && line == p + gap + n
    ensures Strip(line) == line && line != [] && line[0] == p[0]
  {
    assert line == [] + line + [];
    assert line[|line| - 1] == n[|n| - 1];
    StripAround([], line, []);
  }

  lemma TwoWordsSplit(p: string, gap: string, n: string, line: string)
    requires p != [] && n != [] && NoSpace(p) && NoSpace(n) && line == p + gap + n
    requires gap != [] && forall i :: 0 <= i < |gap| ==> IsSpace(gap[i])
    ensures SplitWs(line) == [p, n]
  {
    SplitWsCons(p, gap, n);
    SplitWsWord(n);
  }

  lemma WordsLine(line: string, p: string, n: string)
    requires line != [] && line[0] != '#' && Find(line, "->").None? && SplitWs(line) == [p, n]
    ensures ParseStripped(line) == Parsed(Rule(NormalizePrefix(p), n))
  {
    assert line[..1] == [line[0]];
    assert !StartsWith(line, "#");
    assert Find(line, "->") == None;
  }

  /** `p gap n` holds no `->` when neither word does and the gap is whitespace. */
  lemma GapNoArrow(p: string, gap: string, n: string)
    requires !Contains(p, "->") && !Contains(n, "->")
    requires gap != [] && forall i :: 0 <= i < |gap| ==> IsSpace(gap[i])
    ensures Find(p + gap + n, "->").None?
  {
    var line := p + gap + n;
    forall k: nat
      ensures !OccursAt(line, "->", k)
    {
      GapNoArrowAt(p, gap, n, k);
    }
    FindAbsent(line, "->");
  }

  lemma GapNoArrowAt(p: string, gap: string, n: string, k: nat)
    requires !Contains(p, "->") && !Contains(n, "->")
    requires gap != [] && forall i :: 0 <= i < |gap| ==> IsSpace(gap[i])
    ensures !OccursAt(p + gap + n, "->", k)
  {
    var line := p + gap + n;
    if k + 1 < |p| {
      assert !OccursAt(p, "->", k);
      assert line[k..][..2] == p[k..][..2];
    } else if k + 1 == |p| {
      assert line[k + 1] == gap[0];
    } else if k < |p| + |gap| {
      assert line[k] == gap[k - |p|];
    } else if k <= |line| {
      var j := k - |p| - |gap|;
      assert !OccursAt(n, "->", j);
      assert line[k..] == n[j..];
    }
  }

  lemma LineStrips(p: string, n: string, line: string)
    requires p != [] && n != [] && NoSpace(p) && NoSpace(n) && line == p + " -> " + n
    ensures Strip(line) == line
  {
    assert line == [] + line + [];
    StripAround([], line, []);
  }

  /** Either side of the separator of `p -> n` strips to p and n. */
  lemma SeparatorParts(p: string, n: string, line: string)
    requires p != [] && n != [] && NoSpace(p) && NoSpace(n) && line == p + " -> " + n
    ensures Strip(line[..|p| + 1]) == p && Strip(line[|p| + 1 + 2..]) == n
  {
    assert line[..|p| + 1] == [] + p + " ";
    assert line[|p| + 3..] == " " + n + [];
    StripAround([], p, " ");
    StripAround(" ", n, []);
  }

  /** What one entry contributes to the map. */
  function EntryItem(e: string): Result<seq<Rule>, MapError>
  {
    match ParseEntry(e)
    case Failure(err) => Failure(err)
    case Success(rule) => Success([rule])
  }

  /** What one map-file line contributes to the map. */
  function LineItem(raw: string): Result<seq<Rule>, MapError>
  {
    match ParseMapLine(raw)
    case Skip => Success([])
    case Parsed(rule) => Success([rule])
    case Malformed => Failure(BadLine(raw))
  }

  /** The rules of xs in order, or the error of the first item that fails. */
  function Gather<T>(xs: seq<T>, item: T -> Result<seq<Rule>, MapError>): Result<seq<Rule>, MapError>
  {
    if xs == [] then Success([])
    else match Gather(xs[..|xs| - 1], item)
      case Failure(err) => Failure(err)
      case Success(rules) =>
        match item(xs[|xs| - 1])
        case Failure(err) => Failure(err)
        case Success(more) => Success(rules + more)
  }

  lemma {:induction false} GatherSucceeds<T>(xs: seq<T>, item: T -> Result<seq<Rule>, MapError>)
    ensures Gather(xs, item).Success? <==> forall i :: 0 <= i < |xs| ==> item(xs[i]).Success?
  {
    if xs != [] {
      var init := xs[..|xs| - 1];
      GatherSucceeds(init, item);
      assert forall i :: 0 <= i < |init| ==> init[i] == xs[i];
    }
  }

  /** Once a prefix of the items fails, the whole fails with the same error. */
  lemma {:induction false} GatherStops<T>(xs: seq<T>, item: T -> Result<seq<Rule>, MapError>, i: nat)
    requires i <= |xs| && Gather(xs[..i], item).Failure?
    ensures Gather(xs, item) == Gather(xs[..i], item)
    decreases |xs| - i
  {
    if i < |xs| {
      assert xs[..|xs| - 1][..i] == xs[..i];
      GatherStops(xs[..|xs| - 1], item, i);
    } else {
      assert xs[..i] == xs;
    }
  }

  /** `_load_block_map_file` on the text of the file. */
  function FileRules(contents: string): Result<seq<Rule>, MapError>
  {
    Gather(SplitLines(contents), LineItem)
  }

  /** `_parse_block_map_args` on the entries and the texts of the map files. */
  function BlockMap(entries: seq<string>, files: seq<string>): Result<seq<Rule>, MapError>
  {
    match Gather(entries, EntryItem)
    case Failure(err) => Failure(err)
    case Success(fromEntries) =>
      match Gather(files, FileRules)
      case Failure(err) => Failure(err)
      case Success(fromFiles) => Success(SortBy(fromEntries + fromFiles, LongerFirst))
  }

  /** The loop of `_load_block_map_file` over the lines of the file. */
  method LoadBlockMapFile(contents: string) returns (r: Result<seq<Rule>, MapError>)
    ensures r == FileRules(contents)
  {
    var lines := SplitLines(contents);
    var out: seq<Rule> := [];
    var i := 0;
    while i < |lines|
      invariant 0 <= i <= |lines|
      invariant Gather(lines[..i], LineItem) == Success(out)
    {
      match ParseMapLine(lines[i]) {
        case Skip =>
          GatherStep(lines, LineItem, i, out, []);
          assert out + [] == out;
        case Malformed =>
          GatherFails(lines, LineItem, i, out);
          GatherStops(lines, LineItem, i + 1);
          return Failure(BadLine(lines[i]));
        case Parsed(rule) =>
          GatherStep(lines, LineItem, i, out, [rule]);
          out := out + [rule];
      }
      i := i + 1;
    }
    assert lines[..i] == lines;
    r := Success(out);
  }

  /** One more item that succeeds adds its rules. */
  lemma GatherStep<T>(xs: seq<T>, item: T -> Result<seq<Rule>, MapError>, i: nat, out: seq<Rule>, more: seq<Rule>)
    requires i < |xs| && Gather(xs[..i], item) == Success(out) && item(xs[i]) == Success(more)
    ensures Gather(xs[..i + 1], item) == Success(out + more)
  {
    assert xs[..i + 1][..i] == xs[..i];
  }

  /** One more item that fails makes the whole fail with its error. */
  lemma GatherFails<T>(xs: seq<T>, item: T -> Result<seq<Rule>, MapError>, i: nat, out: seq<Rule>)
    requires i < |xs| && Gather(xs[..i], item) == Success(out) && item(xs[i]).Failure?
    ensures Gather(xs[..i + 1], item) == item(xs[i])
  {
    assert xs[..i + 1][..i] == xs[..i];
  }

  /** The first loop of `_parse_block_map_args`: one rule per `prefix=name` entry. */
  method ParseEntries(entries: seq<string>) returns (r: Result<seq<Rule>, MapError>)
    ensures r == Gather(entries, EntryItem)
  {
    var out: seq<Rule> := [];
    var i := 0;
    while i < |entries|
      invariant 0 <= i <= |entries|
      invariant Gather(entries[..i], EntryItem) == Success(out)
    {
      assert entries[..i + 1][..i] == entries[..i];
      match ParseEntry(entries[i]) {
        case Failure(err) =>
          GatherStops(entries, EntryItem, i + 1);
          return Failure(err);
        case Success(rule) =>
          out := out + [rule];
      }
      i := i + 1;
    }
    assert entries[..i] == entries;
    r := Success(out);
  }

  /** The second loop of `_parse_block_map_args`: the rules of each map file in turn. */
  method LoadBlockMapFiles(files: seq<string>) returns (r: Result<seq<Rule>, MapError>)
    ensures r == Gather(files, FileRules)
  {
    var out: seq<Rule> := [];
    var j := 0;
    while j < |files|
      invariant 0 <= j <= |files|
      invariant Gather(files[..j], FileRules) == Success(out)
    {
      assert files[..j + 1][..j] == files[..j];
      var loaded := LoadBlockMapFile(files[j]);
      match loaded {
        case Failure(err) =>
          GatherStops(files, FileRules, j + 1);
          return Failure(err);
        case Success(rules) =>
          out := out + rules;
      }
      j := j + 1;
    }
    assert files[..j] == files;
    r := Success(out);
  }

  /** `_parse_block_map_args`: entries first, then each file, then longest prefix first. */
  method ParseBlockMapArgs(entries: seq<string>, files: seq<string>) returns (r: Result<seq<Rule>, MapError>)
    ensures r == BlockMap(entries, files)
  {
    var fromEntries := ParseEntries(entries);
    if fromEntries.Failure? {
      return Failure(fromEntries.error);
    }
    var fromFiles := LoadBlockMapFiles(files);
    if fromFiles.Failure? {
      return Failure(fromFiles.error);
    }
    r := Success(SortBy(fromEntries.value + fromFiles.value, LongerFirst));
  }

  /** A block-map file none of whose lines is malformed. */
  predicate WellFormedMapFile(contents: string)
  {
    forall k :: 0 <= k < |SplitLines(contents)| ==> ParseMapLine(SplitLines(contents)[k]) != Malformed
  }

  lemma FileRulesSucceed(contents: string)
    ensures FileRules(contents).Success? <==> WellFormedMapFile(contents)
  {
    GatherSucceeds(SplitLines(contents), LineItem);
  }

  /**
   * The map is rejected exactly when some entry has no '=' or some map-file
   * line is malformed.
   */
  lemma BlockMapRejects(entries: seq<string>, files: seq<string>)
    ensures BlockMap(entries, files).Success? <==>
      (forall i :: 0 <= i < |entries| ==> '=' in entries[i])
      && (forall f :: 0 <= f < |files| ==> WellFormedMapFile(files[f]))
  {
    GatherSucceeds(entries, EntryItem);
    GatherSucceeds(files, FileRules);
    forall f | 0 <= f < |files|
      ensures FileRules(files[f]).Success? <==> WellFormedMapFile(files[f])
    {
      FileRulesSucceed(files[f]);
    }
  }

  /** An accepted map holds every collected rule, longest prefix first. */
  lemma BlockMapSorted(entries: seq<string>, files: seq<string>)
    requires BlockMap(entries, files).Success?
    ensures var rules := BlockMap(entries, files).value;
      SortedBy(rules, LongerFirst)
      && multiset(rules) == multiset(Gather(entries, EntryItem).value + Gather(files, FileRules).value)
  {
    LongerFirstTotal();
    SortBySorted(Gather(entries, EntryItem).value + Gather(files, FileRules).value, LongerFirst);
  }
}
