# PrimeTime report summaries and Tcl-to-cfg conversion, modelled in Dafny

This project models three small command-line tools used in static timing
closure:

- `scripts/pt_summary_from_rpt.py` reads a Synopsys PrimeTime
  `report_timing` text report. It splits the report into timing paths at
  each `Startpoint:` line and records for each path:
  - start and end instance;
  - start and end clock;
  - path group;
  - launch and capture clock-network delays, and from them the skew;
  - the number of sensitised output-pin stages;
  - the slack.

  From the violating paths (negative slack) it then prints:
  - a slack histogram and a skew histogram;
  - per-path-group, per-clock-pair and per-block-pair tables of count, worst slack (WNS) and total negative slack (TNS);
  - a stage-count histogram;
  - a per-startpoint listing.

  Blocks come from an optional prefix map (`--block-map prefix=name` entries and map files), applied longest prefix first.
- `pt_timing_summary.py` reads a timing report line by line. It keeps one
  `TimingStats` per path group and one for `ALL`: the Startpoint count, the
  slack values and a count per path type. It prints an overall block and a
  per-group table (paths, WNS, TNS, violations, best slack).
- `scripts/tcl_to_cfg.py` converts `set <array>(<KEY>) [list ...]` Tcl
  definitions into a `.cfg` file: a section header, author and date
  comments, then `KEY = first` followed by indented continuation paths.

The Dafny modules follow the tools:

| module | file | models |
|---|---|---|
| `Text` | `text.dfy` | The Python `str` operations the tools use: `strip`, `split`, `splitlines`, `ljust`/`rjust`, `find`, `join`, the `str` order, decimal tokens and their exact value |
| `Collections` | `collections.dfy` | Stable sort by a key order, sums, minimum and maximum, filters, and dicts as insertion-ordered association lists |
| `PtPatterns` | `pt_patterns.dfy` | Each regular expression of `pt_summary_from_rpt.py` as a hand-written matcher, plus `parse_first_float`, `parse_last_float_token` and `parse_slack_value` |
| `PtScanner` | `pt_scanner.dfy` | `PathRec` and `iter_paths`: the per-line state machine and what it yields |
| `PtBins` | `pt_bins.dfy` | The slack and skew bins, `bin_value_desc` and `bin_value_linear`, and the histogram counts |
| `PtBlocks` | `pt_blocks.dfy` | `_normalize_prefix`, `top_block`, and the block-map parsers with their `ValueError` paths |
| `PtSummary` | `pt_summary.dfy` | `emit_summary` up to the text layout: violations, WNS/TNS, the three tables, the stage histogram, the startpoint listing |
| `TimingSummary` | `timing_summary.dfy` | `TimingStats` as a class and `parse_report`, both on values and on a dict of objects |
| `TimingReport` | `timing_report.dfy` | `emit_summary` of `pt_timing_summary.py` |
| `TclToCfg` | `tcl_cfg.dfy` | `BLOCK_RE.finditer`, `_extract_paths` and `tcl_to_cfg` |

Loops in the source are Dafny methods with invariants. Each method is proved
equal to a specification function, and the properties are proved about
that function. `TimingStats` is a class whose methods update its fields.
`parse_report` is modelled twice:
- on values (`Parse`);
- on a dict of `TimingStats` objects (`ParseReport`), which is proved to
  mirror the value model.

Floats are modelled as exact reals. A report's decimal tokens are read
exactly (`Text.TokenValue`).

## Model

| member | source | states |
|---|---|---|
| PtScanner.PathRec.Skew | scripts/pt_summary_from_rpt.py:97-100 | The skew exists exactly when both clock delays are known, and it is capture delay minus launch delay |
| PtScanner.Completed | scripts/pt_summary_from_rpt.py:160-162 | A finished record gets the stage count only when it is non-zero. Its end pin becomes the last data pin when that pin is non-empty, else the end pin it had. Nothing else changes |
| PtScanner.Flush | scripts/pt_summary_from_rpt.py:240-244 | Ending a block yields at most one record, and yields one exactly when the block has a record with a slack |
| PtScanner.IterPaths | scripts/pt_summary_from_rpt.py:146-244 | The scanning loop over the report lines returns exactly `Scan(lines)`, the records `iter_paths` yields |
| PtScanner.ScanLine | scripts/pt_summary_from_rpt.py:154-238 | One pass of the loop body gives the state and output of the line-step function |
| PtScanner.BlockLine | scripts/pt_summary_from_rpt.py:186-238 | The part of the loop body after `if cur is None: continue` gives the in-block step |
| PtScanner.RunLinesClassified | scripts/pt_summary_from_rpt.py:154-157 | Running over raw lines is running over their classifications |
| PtScanner.RunInBlock | scripts/pt_summary_from_rpt.py:154-244 | From any state, the output is the flush of the current block, then the records of the following blocks |
| PtScanner.IdleBody | scripts/pt_summary_from_rpt.py:183-184 | Without a current record, lines before the first Startpoint change nothing |
| PtScanner.RecordsSkipPreamble | scripts/pt_summary_from_rpt.py:183-184 | Lines before the first Startpoint contribute no record |
| PtScanner.ScanIsBlockByBlock | scripts/pt_summary_from_rpt.py:146-244 | `iter_paths` yields exactly, in order, one record per Startpoint block that reached a slack |
| PtScanner.StepKeepsStart | scripts/pt_summary_from_rpt.py:186-238 | A line inside a block yields nothing. It keeps the start instance, start clock and start pin. It never overwrites a launch or capture clock delay already read, and never turns a non-empty end pin empty |
| PtScanner.BlockKeepsStart | scripts/pt_summary_from_rpt.py:186-238 | The same over a whole block body |
| PtScanner.StepStageCount | scripts/pt_summary_from_rpt.py:215-225 | The stage count grows by one exactly on a stage row, and otherwise stays the same. A stage row is a point-table row that gets past the Endpoint, Path Group, header, data-arrival and launch-clock-delay checks, whose pin is an output pin, that carries '&' and is not a "(net)" row |
| PtScanner.BlockStageCount | scripts/pt_summary_from_rpt.py:215-225 | Over a block, the stage count grows by the number of stage rows. The record's stage count is that number, or None when the block has no stage row (lines 160-162) |
| PtScanner.StepDataArrival | scripts/pt_summary_from_rpt.py:201-208 | "data arrival time" inside the point table ends the table and sets seen-data-arrival. It falls back to `<end_inst>/D` when there is no end pin and the end instance is non-empty |
| PtScanner.StepStartDelay | scripts/pt_summary_from_rpt.py:201-213 | A line in a block sets the launch clock delay exactly when the delay is unset and the line is a "clock network delay (propagated)" row of the point table (not an Endpoint, Path Group, header or data-arrival line). It then takes the line's first number, or None |
| PtScanner.StepEndDelay | scripts/pt_summary_from_rpt.py:215-234 | A line sets the capture clock delay exactly when the data arrival was seen, the delay is unset, and the line is a clock-network-delay line below the table, or a pin row of the table that reaches those checks. It then takes the line's first number, or None |
| PtScanner.StepDataPin | scripts/pt_summary_from_rpt.py:215-229 | The remembered data pin changes exactly on a point-table row whose pin is a data pin and that is not a "(net)" row, and it becomes that pin |
| PtScanner.BlockStartDelay | scripts/pt_summary_from_rpt.py:210-213 | A block's launch clock delay is the number on its first table clock-delay line whose number parses. Earlier such lines with no number leave it unset |
| PtScanner.BlockEndDelay | scripts/pt_summary_from_rpt.py:231-234 | A block's capture clock delay is the number on its first clock-delay line after the data arrival whose number parses |
| PtScanner.BlockKeepsDataPin | scripts/pt_summary_from_rpt.py:227-229 | Lines that are not data-pin rows leave the remembered data pin unchanged |
| PtScanner.BlockDataPin | scripts/pt_summary_from_rpt.py:227-243 | The last data-pin row of a block decides the remembered data pin. When that pin is non-empty it becomes the record's end pin |
| PtScanner.BlockRecord | scripts/pt_summary_from_rpt.py:158-181 | The record of a block is well formed and carries that block's start instance and clock. Well formed means: it has a slack, its start pin is `<start_inst>/CP`, any stage count is at least 1, and any end pin is non-empty |
| PtScanner.RecordsWellFormed | scripts/pt_summary_from_rpt.py:158-244 | Every yielded record is well formed, and there are at most as many records as Startpoint lines |
| PtScanner.ScanWellFormed | scripts/pt_summary_from_rpt.py:146-244 | The same for `iter_paths` of a whole report |
| PtPatterns.PathGroupName | scripts/pt_summary_from_rpt.py:192-195 | A Path Group line gives a non-empty name without whitespace, and only on a line whose stripped text starts with "Path Group:" |
| PtPatterns.PathGroupNameWord | scripts/pt_summary_from_rpt.py:55-55 | The name is the first word after "Path Group:" and the spaces after it, ending at whitespace or at the end of the line. A line with any non-space text after the colon has a name |
| PtPatterns.ClockToken | scripts/pt_summary_from_rpt.py:53-54 | `(\S+)` captures a non-empty, whitespace-free prefix |
| PtPatterns.ClockTokenLongest | scripts/pt_summary_from_rpt.py:53-54 | `(\S+).*\)` captures the longest prefix of the leading token after which a ')' can still be reached on the line. It fails only when no prefix has one |
| PtPatterns.LastClockedBy | scripts/pt_summary_from_rpt.py:53-54 | The clock found is non-empty and has no whitespace |
| PtPatterns.LastClockedByRightmost | scripts/pt_summary_from_rpt.py:53-54 | The greedy `.*` before "clocked by" settles on the rightmost position where `clocked by\s+(\S+).*\)` matches, and finds nothing only when no position matches |
| PtPatterns.LazyEnd | scripts/pt_summary_from_rpt.py:53-54 | The lazy `(.+?)` ends at the first end where `\s*\(` and the clock group match, and fails only when no end up to the line's end matches |
| PtPatterns.PointLine | scripts/pt_summary_from_rpt.py:53-54 | A Startpoint/Endpoint match occurs only on a line whose stripped text starts with the heading, and its clock is non-empty without whitespace |
| PtPatterns.PointRestInstance | scripts/pt_summary_from_rpt.py:53-54 | After the heading, the instance is the stripped text from the end of the spaces to the first end at which the clock group matches, and the clock is what that group captures |
| PtPatterns.PointLineInstance | scripts/pt_summary_from_rpt.py:165-189 | The instance and clock that `iter_paths` strips from a Startpoint/Endpoint line are those of the text after the heading, as above |
| PtPatterns.PinEnd | scripts/pt_summary_from_rpt.py:62-62 | The search returns the largest pin end in its range that `\s*\(` follows, and fails only when no end there is followed by it |
| PtPatterns.PointPin | scripts/pt_summary_from_rpt.py:62-62 | `RE_POINT_PIN` captures a whitespace-free pin of at least three characters, with a '/' neither first nor last, that starts the stripped line. The pin is the longest prefix of the line's first token that `\s*\(` follows. There is no pin only when no end at least two past a '/' is followed by it |
| PtPatterns.DataAndOutputPinNamesDisjoint | scripts/pt_summary_from_rpt.py:71-76 | No pin name is both an output-pin name and a data-pin name |
| PtPatterns.FirstTokenFrom | scripts/pt_summary_from_rpt.py:112-114 | The search returns the leftmost position where a number starts, and says none exists when no position has one |
| PtPatterns.ParseFirstFloat | scripts/pt_summary_from_rpt.py:112-114 | `parse_first_float` is None exactly when no number starts anywhere on the line. Otherwise it is the value of the greedy token at the leftmost position where a number starts |
| PtPatterns.TokenPrefix | scripts/pt_summary_from_rpt.py:65-65 | The text `RE_FIRST_FLOAT` captures at a token start is a well-formed decimal token |
| PtPatterns.LastTokenFrom | scripts/pt_summary_from_rpt.py:68-68 | A position found is one where `RE_LAST_FLOAT` matches: a token starts there and no digit follows it on its line |
| PtPatterns.LastTokenFromLeftmost | scripts/pt_summary_from_rpt.py:68-68 | The position found is the leftmost one from i on where `RE_LAST_FLOAT` matches, as `re.search` scans. The search finds nothing only when no position matches |
| PtPatterns.ParseLastFloatToken | scripts/pt_summary_from_rpt.py:117-119 | The token returned is a well-formed decimal token |
| PtPatterns.ParseLastFloatTokenLeftmost | scripts/pt_summary_from_rpt.py:117-119 | The token returned is the greedy token at the leftmost position where `RE_LAST_FLOAT` matches. There is none only when no position matches |
| PtPatterns.LastFloatTokenExists | scripts/pt_summary_from_rpt.py:117-119 | `parse_last_float_token` finds a token exactly when the line holds a digit |
| PtPatterns.ParseSlackValue | scripts/pt_summary_from_rpt.py:523-536 | A value exists exactly when a token does. The value is the token's value, except that a zero becomes -1e-12. The value is negative exactly when the token starts with '-', so "-0.000" counts as a violation |
| PtPatterns.SlackValuePresent | scripts/pt_summary_from_rpt.py:523-536 | A slack line yields a value exactly when it holds a digit |
| PtBins.FirstHit | scripts/pt_summary_from_rpt.py:321-333 | The bin loop returns the first bin the value hits, and returns no bin only when the value hits none |
| PtBins.DescendingPartition | scripts/pt_summary_from_rpt.py:312-333 | Descending bins over decreasing edges cover exactly the values at or below the top edge. Each value hits one bin, and the search returns that bin |
| PtBins.AscendingPartition | scripts/pt_summary_from_rpt.py:336-348 | Ascending bins cover every value, and the search returns the one bin the value hits |
| PtBins.Fixed3Injective | scripts/pt_summary_from_rpt.py:286-286 | Different thousandths format differently under `.3f` |
| PtBins.RangeLabelInjective | scripts/pt_summary_from_rpt.py:286-286 | The label of a range bin determines its upper edge |
| PtBins.RangeBins | scripts/pt_summary_from_rpt.py:285-286 | One bin per pair of consecutive edges, in order |
| PtBins.MakeRangeBins | scripts/pt_summary_from_rpt.py:284-286 | The loop over `zip(edges[:-1], edges[1:])` builds exactly those bins |
| PtBins.MakeSlackBins | scripts/pt_summary_from_rpt.py:247-289 | `make_slack_bins` builds the range bins, then the open-ended bin as the source writes it, with -5.0 in the upper-edge slot (see Findings) |
| PtBins.RangeBinsDescending | scripts/pt_summary_from_rpt.py:250-288 | Increasing thousandths give descending bins, closed by an "at most the last edge" bin |
| PtBins.RangeLabelsDistinct | scripts/pt_summary_from_rpt.py:286-288 | The bin labels are pairwise distinct and none is "(unbinned)" |
| PtBins.RangeBinsPartition | scripts/pt_summary_from_rpt.py:321-333 | Such bins partition the values at or below the top edge, and values at or below the last edge get the last label |
| PtBins.LastBinSwapped | scripts/pt_summary_from_rpt.py:288-329 | With the last edge read as an upper edge, values above it keep their bin, and values at or below it hit nothing |
| PtBins.SlackEdgeFacts | scripts/pt_summary_from_rpt.py:250-283 | There are 32 slack edges, strictly decreasing from 0.000 to -5.000 |
| PtBins.SlackBinsPartition | scripts/pt_summary_from_rpt.py:312-333 | With the corrected bins, every slack at or below 0 lands in exactly one bin and a positive slack in none. A slack at or below -5.0 gets " -5.000ns <" |
| PtBins.SlackLabelsDistinct | scripts/pt_summary_from_rpt.py:250-288 | The slack labels are distinct and none is "(unbinned)" |
| PtBins.AsWrittenLosesDeepSlack | scripts/pt_summary_from_rpt.py:288-333 | With the bins as written, a slack at or below 0 is binned exactly when it is above -5.0. Above -5.0 its label is the corrected one; at or below -5.0 it is "(unbinned)" |
| PtBins.DeepSlackUnbinned | scripts/pt_summary_from_rpt.py:288-333 | A slack of exactly -5.0 is "(unbinned)" as written and " -5.000ns <" when corrected |
| PtBins.SkewBinsAscending | scripts/pt_summary_from_rpt.py:292-309 | The skew bins are ascending over the edges -5.0 < -2.0 < ... < 5.0 |
| PtBins.SkewBinsPartition | scripts/pt_summary_from_rpt.py:336-348 | Every skew lands in exactly one skew bin, and none is "(unbinned)" |
| PtBins.SkewLabelsDistinct | scripts/pt_summary_from_rpt.py:294-308 | The skew labels are distinct and none is "(unbinned)" |
| PtBins.Labels | scripts/pt_summary_from_rpt.py:361-364 | The labels of the values are each value's bin label, in order |
| PtBins.PrintedCountsHits | scripts/pt_summary_from_rpt.py:432-433 | With distinct labels, the printed rows `hist.get(label, 0)` add up to the number of values that hit a bin |
| PtBins.NameHitsDistinct | scripts/pt_summary_from_rpt.py:432-433 | With distinct labels, a label is printed in at most one row |
| PtBins.HitAboveEdge | scripts/pt_summary_from_rpt.py:321-333 | When exactly the values above an edge hit, the hit count is the count of values less those at or below the edge |
| PtBins.RangeHistogramTotal | scripts/pt_summary_from_rpt.py:432-433 | Over correct descending bins, every value at or below the top edge is printed exactly once |
| PtBins.SwappedHistogramTotal | scripts/pt_summary_from_rpt.py:432-433 | With the last edge in the upper slot, values at or below it are printed nowhere |
| PtBins.SlackHistogramTotal | scripts/pt_summary_from_rpt.py:432-435 | With the corrected bins, the slack histogram rows of the violations add up to the printed total |
| PtBins.AsWrittenHistogramTotal | scripts/pt_summary_from_rpt.py:432-435 | As written, the slack histogram rows add up to the total less the violations at or below -5.0 |
| PtBins.SkewHistogramTotal | scripts/pt_summary_from_rpt.py:443-444 | The skew histogram rows add up to the number of skews binned |
| PtBlocks.NormalizePrefix | scripts/pt_summary_from_rpt.py:122-127 | The result is empty exactly when the stripped prefix is. A stripped prefix that already ends in '/' is returned as it is. Any other non-empty stripped prefix gets '/' appended |
| PtBlocks.NormalizePrefixIdempotent | scripts/pt_summary_from_rpt.py:122-127 | Normalising twice is normalising once |
| PtBlocks.FirstLevel | scripts/pt_summary_from_rpt.py:143-143 | The fallback block is the longest '/'-free prefix of the instance: the whole instance, or the part before its first '/' |
| PtBlocks.MatchIndex | scripts/pt_summary_from_rpt.py:139-141 | The map loop returns the first rule whose prefix starts the instance, or none when no prefix does |
| PtBlocks.LongerFirstTotal | scripts/pt_summary_from_rpt.py:573-573 | "Longer prefix first" is a total preorder |
| PtBlocks.TopBlockLongestMatch | scripts/pt_summary_from_rpt.py:130-143 | On a map sorted longest prefix first, `top_block` is the name of a matching rule whose prefix is at least as long as every other matching prefix. With no match it is the first hierarchy level |
| PtBlocks.ParseEntry | scripts/pt_summary_from_rpt.py:565-569 | An entry is rejected exactly when it has no '=', with a `BadEntry` error naming that entry |
| PtBlocks.ParseEntryRoundTrip | scripts/pt_summary_from_rpt.py:566-569 | `p=n` with no '=' in p parses to the normalised p and the stripped n |
| PtBlocks.MapLineCases | scripts/pt_summary_from_rpt.py:549-558 | A map-file line is skipped exactly when it is blank or a `#` comment. It is rejected exactly when it has no "->" and fewer than two tokens |
| PtBlocks.StrippedCases | scripts/pt_summary_from_rpt.py:550-557 | The same on the stripped line |
| PtBlocks.ArrowAfterPrefix | scripts/pt_summary_from_rpt.py:552-553 | In `p -> n`, where p contains no "->", the first "->" is the separator |
| PtBlocks.ArrowLine | scripts/pt_summary_from_rpt.py:552-553 | A line with "->" is split at its first "->", and both sides are stripped |
| PtBlocks.MapLineRoundTrip | scripts/pt_summary_from_rpt.py:548-559 | Writing a rule as `p -> n` and parsing the line gives back the normalised p and n |
| PtBlocks.MapLineTwoTokens | scripts/pt_summary_from_rpt.py:542-558 | A line of two words separated by whitespace, with no `->` and not starting with '#', is read as the normalised first word and the second word |
| PtBlocks.GapNoArrow | scripts/pt_summary_from_rpt.py:552-553 | Two words without `->` joined by whitespace contain no `->` |
| PtBlocks.GatherSucceeds | scripts/pt_summary_from_rpt.py:563-574 | Collecting rules succeeds exactly when every item succeeds |
| PtBlocks.GatherStops | scripts/pt_summary_from_rpt.py:556-557 | The first failing item's error is the error of the whole |
| PtBlocks.LoadBlockMapFile | scripts/pt_summary_from_rpt.py:539-560 | The loop over a map file's lines returns its rules or the first `Bad mapping line` error |
| PtBlocks.ParseEntries | scripts/pt_summary_from_rpt.py:565-569 | The loop over the `--block-map` entries returns their rules in order, or the first entry's error |
| PtBlocks.LoadBlockMapFiles | scripts/pt_summary_from_rpt.py:570-571 | The loop over map files concatenates their rules, or returns the first error |
| PtBlocks.ParseBlockMapArgs | scripts/pt_summary_from_rpt.py:563-574 | `_parse_block_map_args`: entries, then files, then the stable sort longest prefix first |
| PtBlocks.FileRulesSucceed | scripts/pt_summary_from_rpt.py:548-560 | A map file is accepted exactly when none of its lines is malformed |
| PtBlocks.BlockMapRejects | scripts/pt_summary_from_rpt.py:563-574 | The map is rejected exactly when some entry has no '=' or some map-file line is malformed |
| PtBlocks.BlockMapSorted | scripts/pt_summary_from_rpt.py:572-573 | An accepted map is sorted longest prefix first, and is a permutation of the collected rules |
| PtSummary.ViolationsExactly | scripts/pt_summary_from_rpt.py:356-356 | `neg` holds every path with a negative slack as often as the report does, and nothing else |
| PtSummary.WnsIsMin | scripts/pt_summary_from_rpt.py:367-367 | WNS is a slack of some violation and no slack is lower; it is 0.0 when there are none |
| PtSummary.TnsNegative | scripts/pt_summary_from_rpt.py:368-368 | TNS is 0.0 exactly when there are no violations, and it is never above WNS |
| PtSummary.GroupedMembers | scripts/pt_summary_from_rpt.py:411-413 | `by_start` has each key once, and holds exactly that key's paths in order. A key is absent exactly when it has no path |
| PtSummary.GroupBy | scripts/pt_summary_from_rpt.py:411-413 | The loop filling `by_start` gives that grouping |
| PtSummary.TallyBy | scripts/pt_summary_from_rpt.py:371-405 | The loops filling a count/WNS/TNS table give the incremental table |
| PtSummary.ReduceSnoc | scripts/pt_summary_from_rpt.py:377-381 | Adding a path to a non-empty group adds one to the count and its slack to the total, and takes the minimum of the worst slacks |
| PtSummary.TallyIsReduced | scripts/pt_summary_from_rpt.py:371-405 | The incrementally filled table equals, key by key, the count, minimum and sum of that key's paths |
| PtSummary.TallyDistinct | scripts/pt_summary_from_rpt.py:371-405 | A table has each key once |
| PtSummary.TallyCounts | scripts/pt_summary_from_rpt.py:371-397 | The per-key counts add up to the number of violations |
| PtSummary.TallyTotals | scripts/pt_summary_from_rpt.py:377-404 | The per-key TNS values add up to the overall TNS |
| PtSummary.TallyWorst | scripts/pt_summary_from_rpt.py:378-405 | The least per-key WNS is the overall WNS |
| PtSummary.NameRowLeTotal | scripts/pt_summary_from_rpt.py:451-451 | The order of `sorted(pg_count.keys())` is a total preorder |
| PtSummary.PairRowLeTotal | scripts/pt_summary_from_rpt.py:465-481 | The order on (str, str) keys is a total preorder |
| PtSummary.StageRowLeTotal | scripts/pt_summary_from_rpt.py:493-493 | The order on stage counts is a total preorder |
| PtSummary.FirstStartDelay | scripts/pt_summary_from_rpt.py:422-422 | `scd` is the launch delay of the first path that has one, or 0.0 when no path has one |
| PtSummary.StartRows | scripts/pt_summary_from_rpt.py:416-423 | There is one start_summary entry per startpoint, in first-seen order |
| PtSummary.CollectStartRows | scripts/pt_summary_from_rpt.py:416-423 | The loop over `by_start.items()` builds those entries |
| PtSummary.DetailLeTotal | scripts/pt_summary_from_rpt.py:425-425 | The key `(-count, worst)` is a total preorder |
| PtSummary.EndpointLeTotal | scripts/pt_summary_from_rpt.py:509-509 | Ordering by slack, with a missing slack read as 0.0, is a total preorder |
| PtSummary.EndpointsOrdered | scripts/pt_summary_from_rpt.py:509-510 | A startpoint's endpoints are its own paths, worst slack first |
| PtSummary.Slacks | scripts/pt_summary_from_rpt.py:361-361 | The slacks binned are those of the violations, in order |
| PtSummary.HistRows | scripts/pt_summary_from_rpt.py:432-433 | One printed row per bin, in bin order, holding the label and its count |
| PtSummary.HistRowsPrinted | scripts/pt_summary_from_rpt.py:432-433 | The histogram rows add up to the sum of the printed counts |
| PtSummary.EmitSummary | scripts/pt_summary_from_rpt.py:355-425 | The filter, `make_slack_bins`, the table loops, the grouping loop and the sorts compute `Summarize`: the values `emit_summary` prints, with the slack bins as the source builds them |
| PtSummary.TableAgrees | scripts/pt_summary_from_rpt.py:451-488 | In every printed table the counts add up to the total line, the TNS values add up to the overall TNS, and the least WNS is the overall WNS |
| PtSummary.TableSorted | scripts/pt_summary_from_rpt.py:451-493 | Every printed table lists its keys in Python's order, each key once, and is a permutation of the table |
| PtSummary.StartSummaryRows | scripts/pt_summary_from_rpt.py:411-425 | The startpoint listing is sorted by (-count, worst). Each row holds exactly its startpoint's paths, with count their number (positive) and worst their WNS. The counts add up to the number of violations |
| PtSummary.SlackRowsTotal | scripts/pt_summary_from_rpt.py:432-435 | The printed slack rows add up to the number of violations less those with slack at or below -5.0. The printed total counts those too |
| PtSummary.DeepViolationUnprinted | scripts/pt_summary_from_rpt.py:432-435 | When one violation has slack at or below -5.0, the printed slack rows add up to less than the printed total |
| PtSummary.CorrectedSlackRowsTotal | scripts/pt_summary_from_rpt.py:288-288 | With the last slack bin corrected, the slack rows add up to the number of violations |
| PtSummary.SkewRowsTotal | scripts/pt_summary_from_rpt.py:443-444 | The skew histogram accounts for every violation whose skew is defined |
| Collections.SortBySorted | scripts/pt_summary_from_rpt.py:425-425 | The stable sort used for `sorted`/`list.sort` returns a list sorted by any total preorder |
| Collections.SortBy | scripts/pt_summary_from_rpt.py:425-425 | Sorting keeps the length and the elements (a permutation) |
| Collections.SortBySums | scripts/pt_summary_from_rpt.py:451-488 | Sorting the table rows does not change their sums |
| Collections.SortByMin | scripts/pt_summary_from_rpt.py:451-488 | Sorting the table rows does not change their minimum |
| Collections.Filter | scripts/pt_summary_from_rpt.py:356-356 | A list comprehension with a condition keeps only elements that satisfy it and is no longer than its input |
| Collections.FilterCount | scripts/pt_summary_from_rpt.py:356-356 | A filter keeps every occurrence of a kept element and nothing else |
| Collections.MaxNat | scripts/pt_summary_from_rpt.py:420-420 | `max_stage` bounds every path's stage count and is attained by one |
| Text.Find | scripts/pt_summary_from_rpt.py:552-553 | `"->" in line`: the index found is the first occurrence, and none means no occurrence |
| Text.FindAbsent | scripts/pt_summary_from_rpt.py:552-553 | When the text occurs at no position, `find` reports none |
| Text.Strip | scripts/pt_summary_from_rpt.py:549-549 | `strip()` leaves no whitespace at either end |
| Text.StripAround | scripts/tcl_to_cfg.py:49-49 | `strip()` removes exactly the whitespace padding around a string with non-space ends |
| Text.SplitWs | scripts/pt_summary_from_rpt.py:555-555 | `split()` gives non-empty, whitespace-free words |
| Text.SplitWsCons | scripts/pt_summary_from_rpt.py:554-558 | A word, whitespace and the rest split into the word and the rest's words |
| Text.SplitLines | scripts/pt_summary_from_rpt.py:548-548 | `splitlines()` gives pieces without line breaks |
| Text.SplitLinesUnlines | scripts/tcl_to_cfg.py:88-88 | `splitlines()` gives back the lines a text was written from |
| Text.LJust | scripts/tcl_to_cfg.py:115-115 | `ljust(w)` keeps the text and pads it with spaces on the right up to w |
| Text.RJust | scripts/pt_summary_from_rpt.py:433-433 | `{:>w}` keeps the text and pads it with spaces on the left up to w |
| Text.StrOrder | scripts/pt_summary_from_rpt.py:451-451 | Python's order on `str` is total, transitive and antisymmetric |
| Text.TokenValue | scripts/pt_summary_from_rpt.py:533-533 | `float(tok)` is at most 0 for a token starting with '-', and at least 0 otherwise |
| Text.NatStrDigits | scripts/pt_summary_from_rpt.py:433-433 | `str(n)` is a run of digits that reads back as n |
| TimingSummary.TimingStats.constructor | pt_timing_summary.py:19-23 | A new TimingStats has no paths, no slacks and no path types |
| TimingSummary.TimingStats.RecordPath | pt_timing_summary.py:25-26 | `record_path` adds one path and leaves the other fields unchanged |
| TimingSummary.TimingStats.RecordSlack | pt_timing_summary.py:28-29 | `record_slack` appends the value and leaves the other fields unchanged |
| TimingSummary.TimingStats.RecordPathType | pt_timing_summary.py:31-32 | `record_path_type` adds one to that type's count and keeps every other count and field |
| TimingSummary.TimingStats.RecordEvent | pt_timing_summary.py:76-89 | The `record_*` call for one report event changes the object as the value model says |
| TimingSummary.Bump | pt_timing_summary.py:32-32 | `d[k] = d.get(k, 0) + 1` keeps the keys distinct |
| TimingSummary.BumpLookup | pt_timing_summary.py:32-32 | Counting a key adds one to that key's count and leaves every other count alone |
| TimingSummary.Worst | pt_timing_summary.py:38-40 | `wns` is None exactly when there are no slacks. Otherwise it is a recorded slack no greater than any other |
| TimingSummary.MaxSlack | pt_timing_summary.py:44-44 | `max` of the slacks is a recorded slack no smaller than any other |
| TimingSummary.Best | pt_timing_summary.py:42-44 | `best_slack` is None exactly when there are no slacks. Otherwise it is a recorded slack no smaller than any other |
| TimingSummary.Resolved | pt_timing_summary.py:54-57 | The Startpoint count when there is one, otherwise the number of slacks. It is 0 exactly when there are neither Startpoints nor slacks |
| TimingSummary.RecordSlackQueries | pt_timing_summary.py:46-52 | One more slack adds to `violations` and `tns` exactly when it is negative; zero is not a violation |
| TimingSummary.TnsSign | pt_timing_summary.py:46-52 | `tns` is never positive. It is negative exactly when there is a violation. There is no violation exactly when every slack is at least 0 |
| TimingSummary.TnsBelowWns | pt_timing_summary.py:38-52 | With a violation, `tns` is at most `wns` |
| TimingSummary.FieldAfter | pt_timing_summary.py:67-75 | `^Head:\s*(.+)` then `strip()` matches only lines starting with the head, and gives a field with no outer whitespace |
| TimingSummary.FieldOf | pt_timing_summary.py:15-16 | The captured, stripped field has no outer whitespace |
| TimingSummary.FieldAfterReadsBack | pt_timing_summary.py:67-75 | A head, whitespace and a one-line field with non-space ends reads back as that field |
| TimingSummary.FieldOfReadsBack | pt_timing_summary.py:15-16 | The same after the head |
| TimingSummary.GroupLineNames | pt_timing_summary.py:67-70 | "Path Group:", padding and a name set the current group to that name |
| TimingSummary.BlankGroupLine | pt_timing_summary.py:67-70 | "Path Group:" followed by blanks only names the group "UNSPECIFIED" |
| TimingSummary.Gap | pt_timing_summary.py:13-13 | `[^-+\d]*` stops at the first sign or digit |
| TimingSummary.SlackSearch | pt_timing_summary.py:85-85 | `SLACK_RE.search` finds the leftmost match, and none only when there is none |
| TimingSummary.SlackValue | pt_timing_summary.py:85-87 | A slack value exists exactly when the pattern matches somewhere on the line |
| TimingSummary.SlackValueReadsBack | pt_timing_summary.py:85-87 | "slack", a gap without signs or digits, and a number read back as that number |
| TimingSummary.SetDefault | pt_timing_summary.py:70-70 | `setdefault` leaves the key present. The dict is either unchanged or gains one new empty entry at the end |
| TimingSummary.RecordAt | pt_timing_summary.py:76-89 | Recording into an entry keeps the dict's keys and their order |
| TimingSummary.ApplyWellFormed | pt_timing_summary.py:64-89 | One pass of the loop keeps the keys distinct, "ALL" first and every path-type dict with distinct keys |
| TimingSummary.Parse | pt_timing_summary.py:60-91 | The dict built from any prefix of the report is well formed |
| TimingSummary.ParseSnoc | pt_timing_summary.py:64-89 | Each further line is one pass of the loop body |
| TimingSummary.SetDefaultObject | pt_timing_summary.py:70-70 | `stats.setdefault(key, TimingStats())` on objects mirrors the value model, and adds at most one fresh object |
| TimingSummary.ApplyToObjects | pt_timing_summary.py:64-89 | One pass of the loop body on a dict of objects mirrors one step of the value model |
| TimingSummary.RecordInBoth | pt_timing_summary.py:76-89 | "ALL" records the event, then the current group's entry (created if needed) records it |
| TimingSummary.RecordInObject | pt_timing_summary.py:76-76 | `stats[key].record_...` on objects mirrors the value model |
| TimingSummary.ParseReport | pt_timing_summary.py:60-91 | `parse_report` returns fresh, distinct TimingStats objects whose keys and contents are those of the value model |
| TimingSummary.RecordedDelta | pt_timing_summary.py:25-32 | Recording an event adds exactly that event's path, slack or type |
| TimingSummary.RecordKeepsSum | pt_timing_summary.py:76-89 | Recording an event in "ALL" and in a group other than "ALL" keeps "ALL" equal to the sum of the groups |
| TimingSummary.GroupKeepsSum | pt_timing_summary.py:67-71 | A group line naming a group other than "ALL" keeps that sum |
| TimingSummary.AllIsSumOfGroups | pt_timing_summary.py:60-91 | Unless a group is named "ALL", the "ALL" entry holds exactly the sum of the other entries: the path count, each slack value's count, and each path type's count |
| TimingSummary.AllGroupRecordedTwice | pt_timing_summary.py:76-89 | When the current group is literally "ALL", each event is recorded twice in the "ALL" entry |
| TimingReport.Repeat | pt_timing_summary.py:105-125 | `"=" * 7` and `"-" * 80` give that many copies of the character |
| TimingReport.Prefix | pt_timing_summary.py:132-132 | `group[:24]` is a prefix of the name, of length at most 24 |
| TimingReport.GroupLineColumns | pt_timing_summary.py:130-139 | A group row starts with the name cut to 24 characters and padded to 24, then a blank |
| TimingReport.TypeLeTotal | pt_timing_summary.py:114-114 | Python's order on (str, int) items is a total preorder |
| TimingReport.EntryLeTotal | pt_timing_summary.py:127-127 | Python's order on dict items with distinct keys is a total preorder |
| TimingReport.GroupTableRows | pt_timing_summary.py:127-129 | The per-group table is sorted by name and holds every entry except "ALL", each as often as the dict does |
| TimingReport.TypeListSorted | pt_timing_summary.py:114-115 | The path types are listed sorted, as a permutation of the dict |
| TimingReport.Rows | pt_timing_summary.py:114-115 | One line per element, in order |
| TimingReport.HeadShape | pt_timing_summary.py:104-125 | The heading block has 12 lines plus the path-type section, and ends with a rule of 80 dashes |
| TimingReport.SummaryEndsWithTable | pt_timing_summary.py:100-141 | After that heading come exactly the group rows, one per non-"ALL" entry in sorted order |
| TimingReport.AppendRows | pt_timing_summary.py:114-115 | A printing loop appends one line per element, in order |
| TimingReport.AppendKept | pt_timing_summary.py:127-139 | A printing loop that skips "ALL" appends the lines of the kept elements, in order |
| TimingReport.EmitSummary | pt_timing_summary.py:100-141 | `emit_summary` appends the blocks in turn and joins them with newlines |
| TclToCfg.DropComments | scripts/tcl_to_cfg.py:86-92 | The comment-dropping loop gives the kept lines joined with newlines |
| TclToCfg.UncommentedLines | scripts/tcl_to_cfg.py:88-92 | Every kept line is code, and every code line is kept as often as it occurs |
| TclToCfg.OnlyComments | scripts/tcl_to_cfg.py:88-92 | A text made only of comment lines keeps nothing |
| TclToCfg.MatchAt | scripts/tcl_to_cfg.py:37-37 | A match consumes input and holds a non-empty key without ')' and a body without ']' |
| TclToCfg.ListPart | scripts/tcl_to_cfg.py:37-37 | After the key, `\s+\[list` keeps the key and leads to the body |
| TclToCfg.BodyPart | scripts/tcl_to_cfg.py:37-37 | The lazy body runs to the first ']' and contains none |
| TclToCfg.Scan | scripts/tcl_to_cfg.py:108-108 | Every match `finditer` yields has that shape |
| TclToCfg.BodyOf | scripts/tcl_to_cfg.py:37-37 | A body without ']' followed by ']' is captured whole |
| TclToCfg.KeyOf | scripts/tcl_to_cfg.py:37-37 | A key without ')' followed by ')' is captured whole |
| TclToCfg.ArrayOf | scripts/tcl_to_cfg.py:37-37 | A word-character array name followed by '(' leads to the key |
| TclToCfg.MatchRendered | scripts/tcl_to_cfg.py:37-37 | A well-formed `set a(k) [list body]` line is matched with its key and body, and the search resumes after the newline |
| TclToCfg.ScanScript | scripts/tcl_to_cfg.py:108-110 | Declarations written one per line are all found, in order, with their keys and bodies |
| TclToCfg.DropTrailingMark | scripts/tcl_to_cfg.py:53-57 | Dropping a trailing mark removes it and the blanks before it |
| TclToCfg.DropTrailingNone | scripts/tcl_to_cfg.py:53-57 | A line not ending in the mark is left as it is |
| TclToCfg.PathLines | scripts/tcl_to_cfg.py:47-60 | The cleaned lines kept are non-empty |
| TclToCfg.Tokens | scripts/tcl_to_cfg.py:63-65 | The tokens are non-empty and whitespace-free |
| TclToCfg.ExtractPaths | scripts/tcl_to_cfg.py:42-66 | `_extract_paths` returns the specified paths, each non-empty and whitespace-free |
| TclToCfg.CollectLines | scripts/tcl_to_cfg.py:47-60 | The cleaning loop keeps the non-empty cleaned lines in order |
| TclToCfg.CleanOne | scripts/tcl_to_cfg.py:48-60 | The loop body cleans one raw line |
| TclToCfg.DropMark | scripts/tcl_to_cfg.py:53-57 | The mark-dropping step removes a trailing mark and the blanks before it, and leaves a line without the mark unchanged (through `DropTrailingMark` and `DropTrailingNone`) |
| TclToCfg.SplitAll | scripts/tcl_to_cfg.py:63-65 | The splitting loop collects every line's tokens, in order |
| TclToCfg.RStripBlanks | scripts/tcl_to_cfg.py:54-57 | `rstrip()` removes exactly a trailing run of blanks |
| TclToCfg.CleanContinued | scripts/tcl_to_cfg.py:48-57 | A continued line `<indent><path> \` gives back the path |
| TclToCfg.CleanBare | scripts/tcl_to_cfg.py:48-57 | An indented line holding only a path gives back the path |
| TclToCfg.CleanOpening | scripts/tcl_to_cfg.py:48-59 | The ` \` after `[list` leaves nothing, and the line is dropped |
| TclToCfg.CleanDropsBoth | scripts/tcl_to_cfg.py:53-57 | `path; \` loses both the backslash and the ';' |
| TclToCfg.CleanDropsOneBackslash | scripts/tcl_to_cfg.py:53-54 | Only one trailing backslash is dropped |
| TclToCfg.CleanKeepsBackslashBeforeSemicolon | scripts/tcl_to_cfg.py:53-57 | The ';' is tested after the backslash, so in `path\;` the backslash stays |
| TclToCfg.PathLinesOfList | scripts/tcl_to_cfg.py:47-60 | The lines of a multi-line list clean to its paths |
| TclToCfg.PathLinesSnoc | scripts/tcl_to_cfg.py:47-60 | One more raw line adds its cleaned text when that is not empty |
| TclToCfg.TokensOfPaths | scripts/tcl_to_cfg.py:63-65 | Whitespace-free paths split back into themselves |
| TclToCfg.PathsOfListBody | scripts/tcl_to_cfg.py:42-66 | `_extract_paths` reads back every path of a multi-line list, in order |
| TclToCfg.Indented | scripts/tcl_to_cfg.py:117-119 | Each further path is prefixed by the continuation padding |
| TclToCfg.TrimBlank | scripts/tcl_to_cfg.py:122-124 | Trimming leaves a prefix that does not end in a blank line, and removes only blank lines |
| TclToCfg.AppendEntry | scripts/tcl_to_cfg.py:115-120 | One block appends its key line, its indented paths and a blank line |
| TclToCfg.TrimTrailingBlanks | scripts/tcl_to_cfg.py:122-124 | The trimming loop gives that trimmed prefix |
| TclToCfg.AppendEntries | scripts/tcl_to_cfg.py:108-120 | The loop over the matches appends their entries in order, skipping blocks with no paths |
| TclToCfg.TclToCfg | scripts/tcl_to_cfg.py:69-126 | `tcl_to_cfg` with a given date returns the specified cfg text |
| TclToCfg.EntriesSize | scripts/tcl_to_cfg.py:108-120 | The block lines number, per block with paths, its paths plus one |
| TclToCfg.EntryLength | scripts/tcl_to_cfg.py:111-120 | A block writes nothing without paths, and otherwise its path count plus one lines |
| TclToCfg.EntryReadsBack | scripts/tcl_to_cfg.py:115-120 | A block's lines read back: the key line splits into key, "=" and the first path. Each further line is the padding plus a path and strips to that path. The last line is blank |
| TclToCfg.IndentedReadsBack | scripts/tcl_to_cfg.py:117-119 | Each indented line strips back to its path |
| TclToCfg.KeyLineSplits | scripts/tcl_to_cfg.py:115-116 | `split()` of the key line gives the key, "=" and the first path |
| TclToCfg.EntriesLineEnds | scripts/tcl_to_cfg.py:108-120 | Every line the blocks write is blank or ends in a character that is not whitespace |
| TclToCfg.CfgShape | scripts/tcl_to_cfg.py:100-126 | The cfg holds at least the three header lines, ends with a non-blank line, and is its lines each followed by a newline |
| TclToCfg.TrimAfterHeader | scripts/tcl_to_cfg.py:122-124 | Trimming never reaches into the header |
| TclToCfg.CfgStartsWithHeader | scripts/tcl_to_cfg.py:102-106 | The cfg starts with the section line, the author line and the date line |
| TclToCfg.CfgEndsWithOneNewline | scripts/tcl_to_cfg.py:122-126 | The cfg ends with exactly one newline when the date does not end in one |
| TclToCfg.UnlinesEnd | scripts/tcl_to_cfg.py:126-126 | Lines whose last one is neither blank nor ends in a newline are written with exactly one final newline |
| TclToCfg.CommentsOnly | scripts/tcl_to_cfg.py:86-126 | A file of comments only gives the header alone |

## Left out

- Command-line parsing (`parse_args`, `main`), reading and writing files, and `open_text`'s gzip handling are not modelled. The tools' inputs are given as line sequences or texts, and a block-map file as its contents.
- Float formatting is not modelled. `.3f`, `fmt3` and `format_float` appear as a formatting-function parameter `fmt` in `TimingReport`. `emit_summary` of `pt_summary_from_rpt.py` is modelled up to the values it prints (`PtSummary.Summary`). The text layout of its `out` lines (the fixed headings, column widths and the startpoint listing's line format) is not modelled.
- Python floats are modelled as exact reals, so rounding in sums such as TNS is not modelled. `float(tok)` is the exact decimal value of the token. The nudge `-1e-12` is the exact real -0.000000000001.
- The date default of `tcl_to_cfg` (`datetime.now()`) is not modelled: the date is an argument.
- The regular expressions are hand-written matchers for exactly the patterns used. There is no general regex engine. `\d` and `\w` are ASCII only. `\s` and `str.isspace` use Python's whitespace set.
- `TimingStats.has_slack` is not modelled: nothing in the tool calls it. It is `|slackValues| > 0`, which `TimingSummary.Worst` characterises (None exactly when no slack was recorded).
- Python dicts are association lists in insertion order with distinct keys. `Counter` lookups are `Occurrences` over the label list.
- PtBlocks.BlockMapSorted: states sorted longest prefix first and a permutation of the collected rules. It does not state that rules with prefixes of equal length keep their order, although `Collections.SortBy`, which models Python's stable sort, does keep it.
- PtSummary.StartSummaryRows: states the order by (-count, worst). It does not state that startpoints with equal keys keep their first-seen order, although `Collections.SortBy`, which models Python's stable sort, does keep it.
- PtSummary.EndpointsOrdered: states worst slack first. It does not state that endpoints with equal slack keep their report order, for the same reason.
- PtSummary.TableSorted: states each table's key order. It does not state how rows with equal keys are ordered; the keys are distinct, so this does not arise for the tables printed.
- TclToCfg.PathsOfListBody: the read-back is proved for the usual multi-line list layout only (` \` after `[list`, one `<indent><path> \` line per path, `]` on a line of its own). Other layouts are computed by the model but carry no read-back lemma.
- TclToCfg.ScanScript: the read-back is proved for declarations written one per line in the form `set a(k) [list body]` with single spaces. Other spacing is computed by the model but carries no read-back lemma.
- PtPatterns.PointRestInstance: when the lazy search fails and `\s*` hands one whitespace character to `(.+?)`, the lemma states the empty instance and its clock. It does not state the condition on the leading spaces under which the regex takes that path.
- PtScanner.Classify (the tests of one line, in the loop's order) has no row: its contract states only that a line marked as an output or data pin carries a pin. Its content is its definition, which `PtScanner.StepStageCount` and `PtScanner.StepDataArrival` use.

## Findings

| source | as written | input that shows it | evidently intended | confidence | as-written member | corrected member |
|---|---|---|---|---|---|---|
| scripts/pt_summary_from_rpt.py:288 | The last slack bin is built as `(-5.000, None, " -5.000ns <")`. `bin_value_desc` (lines 321-333) unpacks each bin as `(upper, lower, label)`, so this bin is tested as `v > -5.0`, which every earlier bin already covers | A violation with slack -5.0, or any slack at or below -5.0, is counted as "(unbinned)", which is not a printed row. The histogram rows then add up to less than the printed total | Slacks at or below -5.0 are counted in the " -5.000ns <" row, as the comment on line 287 says | not executed | PtBins.AsWrittenLosesDeepSlack, PtBins.DeepSlackUnbinned, PtBins.AsWrittenHistogramTotal, PtSummary.SlackRowsTotal, PtSummary.DeepViolationUnprinted | PtBins.SlackBinsPartition, PtBins.SlackHistogramTotal, PtSummary.CorrectedSlackRowsTotal |
