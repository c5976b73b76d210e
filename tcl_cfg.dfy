/**
 * `scripts/tcl_to_cfg.py`: Tcl `set <array>(<KEY>) [list ...]` definitions
 * rewritten as one `.cfg` section. Comment lines are dropped first; the
 * blocks are then found by a scanner for the tool's block pattern; each
 * block's body is split into paths; and every block with at least one path
 * becomes one entry: the key padded to the name column, " = ", the first
 * path, then each further path on its own indented line, then a blank line.
 * Trailing blank lines are trimmed and the text ends with one newline.
 */
module TclToCfg {
  import opened Text
  import opened Collections

  // ---------------------------------------------------------------------
  // Comment lines
  // ---------------------------------------------------------------------

  /** A line is kept unless its left-stripped text starts with '#'. */
  predicate IsCode(line: string)
  {
    !StartsWith(LStrip(line), "#")
  }

  /** The text the blocks are searched in: the kept lines joined with "\n". */
  function Uncommented(text: string): string
  {
    Join(Filter(SplitLines(text), IsCode), "\n")
  }

  /** The comment-dropping loop of `tcl_to_cfg`. */
  method DropComments(text: string) returns (cleaned: string)
    ensures cleaned == Uncommented(text)
  {
    var raws := SplitLines(text);
    var cleanedLines: seq<string> := [];
    for i := 0 to |raws|
      invariant cleanedLines == Filter(raws[..i], IsCode)
    {
      assert raws[..i + 1][..i] == raws[..i];
      assert Filter(raws[..i + 1], IsCode) == Filter(raws[..i], IsCode) + (if IsCode(raws[i]) then [raws[i]] else []);
      if IsCode(raws[i]) {
        cleanedLines := cleanedLines + [raws[i]];
      }
    }
    assert raws[..|raws|] == raws;
    cleaned := Join(cleanedLines, "\n");
  }

  /** Every line that is kept is code, and every code line is kept as often as it occurs. */
  lemma UncommentedLines(text: string)
    ensures forall i :: 0 <= i < |Filter(SplitLines(text), IsCode)| ==> IsCode(Filter(SplitLines(text), IsCode)[i])
    ensures forall l :: multiset(Filter(SplitLines(text), IsCode))[l] == if IsCode(l) then multiset(SplitLines(text))[l] else 0
  {
    forall l ensures multiset(Filter(SplitLines(text), IsCode))[l] == if IsCode(l) then multiset(SplitLines(text))[l] else 0 {
      FilterCount(SplitLines(text), IsCode, l);
    }
  }

  /** A text made only of comment lines leaves nothing to search. */
  lemma {:induction false} OnlyComments(lines: seq<string>)
    requires forall i :: 0 <= i < |lines| ==> !IsCode(lines[i])
    ensures Filter(lines, IsCode) == []
  {
    if lines != [] {
      OnlyComments(lines[..|lines| - 1]);
    }
  }

  // ---------------------------------------------------------------------
  // The block pattern `set\s+\w+\((?P<key>[^)]+)\)\s+\[list(?P<body>.*?)\]\s*;?`
  // ---------------------------------------------------------------------

  /** One match: the text of the `key` group and of the `body` group. */
  datatype Block = Block(key: string, body: string)

  /** What the pattern lets a match hold: a non-empty key without ')', a body without ']'. */
  predicate BlockShape(b: Block)
  {
    b.key != [] && ')' !in b.key && ']' !in b.body
  }

  /**
   * The pattern tried at the front of s: the match and the text after it.
   * Every repetition in the pattern is followed by a character its class
   * excludes, so backtracking never changes the outcome: `\s+` and `\w+`
   * take their whole run, the key runs to the first ')' and the lazy body
   * to the first ']'.
   */
  function MatchAt(s: string): (r: Option<(Block, string)>)
    ensures r.Some? ==> |r.value.1| < |s| && BlockShape(r.value.0)
  {
    if StartsWith(s, "set") then AfterSet(s[3..]) else None
  }

  /** `\s+` then the array name. */
  function AfterSet(s: string): (r: Option<(Block, string)>)
    ensures r.Some? ==> |r.value.1| < |s| && BlockShape(r.value.0)
  {
    var n := SpaceRun(s);
    if n == 0 then None else ArrayName(s[n..])
  }

  /** `\w+\(` then the key. */
  function ArrayName(s: string): (r: Option<(Block, string)>)
    ensures r.Some? ==> |r.value.1| < |s| && BlockShape(r.value.0)
  {
    var w := WordRun(s);
    if w == 0 || w == |s| || s[w] != '(' then None else KeyPart(s[w + 1..])
  }

  /** `[^)]+\)`: the key runs to the first ')' and must not be empty. */
  function KeyPart(s: string): (r: Option<(Block, string)>)
    ensures r.Some? ==> |r.value.1| < |s| && BlockShape(r.value.0)
  {
    match IndexOf(s, ')')
    case None => None
    case Some(i) => if i == 0 then None else ListPart(s[..i], s[i + 1..])
  }

  /** `\s+\[list` then the body. */
  function ListPart(key: string, s: string): (r: Option<(Block, string)>)
    requires key != [] && ')' !in key
    ensures r.Some? ==> |r.value.1| < |s| && BlockShape(r.value.0) && r.value.0.key == key
  {
    var n := SpaceRun(s);
    if n == 0 || !StartsWith(s[n..], "[list") then None else BodyPart(key, s[n + 5..])
  }

  /** `.*?\]` (`.` matching newlines too): the body runs to the first ']'. */
  function BodyPart(key: string, s: string): (r: Option<(Block, string)>)
    ensures r.Some? ==> |r.value.1| < |s| && r.value.0.key == key && ']' !in r.value.0.body
  {
    match IndexOf(s, ']')
    case None => None
    case Some(j) => Some((Block(key, s[..j]), Tail(s[j + 1..])))
  }

  /** `\s*;?` always matches; it only decides where the next search starts. */
  function Tail(s: string): (r: string)
    ensures |r| <= |s|
  {
    var t := s[SpaceRun(s)..];
    if t != [] && t[0] == ';' then t[1..] else t
  }

  /**
   * `BLOCK_RE.finditer`: the pattern is tried at each position in turn; after
   * a match the search goes on where the match ended.
   */
  function Scan(s: string): (r: seq<Block>)
    ensures forall i :: 0 <= i < |r| ==> BlockShape(r[i])
    decreases |s|
  {
    if s == [] then []
    else match MatchAt(s)
      case Some((b, rest)) => [b] + Scan(rest)
      case None => Scan(s[1..])
  }

  /** A declaration `set <array>(<key>) [list<body>]` as written in a Tcl file. */
  datatype Decl = Decl(arrayName: string, key: string, body: string)

  predicate WellFormed(d: Decl)
  {
    d.arrayName != [] && (forall i :: 0 <= i < |d.arrayName| ==> IsWordChar(d.arrayName[i]))
    && d.key != [] && ')' !in d.key && ']' !in d.body
  }

  function Render(d: Decl): string
  {
    "set " + d.arrayName + "(" + d.key + ") [list" + d.body + "]"
  }

  /** Declarations one per line. */
  function Script(ds: seq<Decl>): string
  {
    if ds == [] then "" else Render(ds[0]) + "\n" + Script(ds[1..])
  }

  /** The key and body text of each declaration, in order. */
  function Found(ds: seq<Decl>): (r: seq<Block>)
    ensures |r| == |ds|
    ensures forall i :: 0 <= i < |ds| ==> r[i] == Block(ds[i].key, ds[i].body)
  {
    if ds == [] then [] else [Block(ds[0].key, ds[0].body)] + Found(ds[1..])
  }

  lemma TailOfNewline(rest: string)
    requires rest == [] || (!IsSpace(rest[0]) && rest[0] != ';')
    ensures Tail("\n" + rest) == rest
  {
    SpaceRunStops("\n", rest);
    assert ("\n" + rest)[1..] == rest;
  }

  lemma BodyOf(key: string, body: string, t: string)
    requires ']' !in body
    ensures BodyPart(key, body + "]" + t) == Some((Block(key, body), Tail(t)))
  {
    IndexOfStops(body, ']', t);
    var s := body + "]" + t;
    assert s[..|body|] == body && s[|body| + 1..] == t;
  }

  lemma ListOf(key: string, x: string)
    requires key != [] && ')' !in key
    ensures ListPart(key, " [list" + x) == BodyPart(key, x)
  {
    var s := " [list" + x;
    SpaceRunStops(" ", "[list" + x);
    assert s[1..] == "[list" + x;
    assert s[6..] == x;
  }

  lemma KeyOf(key: string, x: string)
    requires key != [] && ')' !in key
    ensures KeyPart(key + ")" + x) == ListPart(key, x)
  {
    IndexOfStops(key, ')', x);
    var s := key + ")" + x;
    assert s[..|key|] == key && s[|key| + 1..] == x;
  }

  lemma ArrayOf(arr: string, x: string)
    requires arr != [] && forall i :: 0 <= i < |arr| ==> IsWordChar(arr[i])
    ensures ArrayName(arr + "(" + x) == KeyPart(x)
  {
    WordRunStops(arr, "(" + x);
    var s := arr + "(" + x;
    assert s == arr + ("(" + x);
    assert s[|arr|] == '(';
    assert s[|arr| + 1..] == x;
  }

  lemma AfterSetOf(x: string)
    requires x != [] && !IsSpace(x[0])
    ensures AfterSet(" " + x) == ArrayName(x)
  {
    SpaceRunStops(" ", x);
    assert (" " + x)[1..] == x;
  }

  lemma RenderSplit(arr: string, key: string, body: string, rest: string, r: string)
    requires r == "set " + arr + "(" + key + ") [list" + body + "]" + "\n" + rest
    ensures r == "set" + (" " + (arr + "(" + (key + ")" + (" [list" + (body + "]" + ("\n" + rest))))))
  {
  }

  /** A well-formed declaration followed by a newline is one match, and the search resumes after the newline. */
  lemma MatchRendered(d: Decl, rest: string)
    requires WellFormed(d)
    requires rest == [] || (!IsSpace(rest[0]) && rest[0] != ';')
    ensures MatchAt(Render(d) + "\n" + rest) == Some((Block(d.key, d.body), rest))
  {
    var t := "\n" + rest;
    var fromBody := d.body + "]" + t;
    var fromList := " [list" + fromBody;
    var fromKey := d.key + ")" + fromList;
    var fromArray := d.arrayName + "(" + fromKey;
    var s := "set" + (" " + fromArray);
    RenderSplit(d.arrayName, d.key, d.body, rest, Render(d) + "\n" + rest);
    assert s[..3] == "set" && s[3..] == " " + fromArray;
    assert fromArray[0] == d.arrayName[0];
    AfterSetOf(fromArray);
    ArrayOf(d.arrayName, fromKey);
    KeyOf(d.key, fromList);
    ListOf(d.key, fromBody);
    BodyOf(d.key, d.body, t);
    TailOfNewline(rest);
  }

  /** Declarations written one per line are all found, in the order they were written. */
  lemma {:induction false} ScanScript(ds: seq<Decl>)
    requires forall i :: 0 <= i < |ds| ==> WellFormed(ds[i])
    ensures Scan(Script(ds)) == Found(ds)
  {
    if ds != [] {
      var rest := Script(ds[1..]);
      assert rest == [] || rest[0] == 's' by {
        if ds[1..] != [] {
          assert rest == Render(ds[1..][0]) + "\n" + Script(ds[1..][1..]);
        }
      }
      MatchRendered(ds[0], rest);
      ScanScript(ds[1..]);
    }
  }

  // ---------------------------------------------------------------------
  // `_extract_paths`
  // ---------------------------------------------------------------------

  /** One body line after `strip()`, then one trailing '\' dropped, then one trailing ';'. */
  function CleanLine(raw: string): string
  {
    DropTrailing(DropTrailing(Strip(raw), '\\'), ';')
  }

  /** `if line.endswith(c): line = line[:-1].rstrip()` */
  function DropTrailing(line: string, c: char): string
  {
    if EndsWith(line, [c]) then RStrip(line[..|line| - 1]) else line
  }

  /** The mark goes, and the blanks before it. */
  lemma DropTrailingMark(t: string, s: string, b: string, c: char)
    requires s != [] && !IsSpace(s[|s| - 1])
    requires forall i :: 0 <= i < |b| ==> b[i] == ' '
    requires t == s + b + [c]
    ensures DropTrailing(t, c) == s
  {
    assert t[|t| - 1] == c;
    assert t[..|t| - 1] == s + b;
    RStripBlanks(s, b);
  }

  /** Without the mark at its end a line is left as it is. */
  lemma DropTrailingNone(s: string, c: char)
    requires s == [] || s[|s| - 1] != c
    ensures DropTrailing(s, c) == s
  {
  }

  /** The first loop: the non-empty cleaned lines, in order. */
  function PathLines(raws: seq<string>): (r: seq<string>)
    ensures forall i :: 0 <= i < |r| ==> r[i] != []
  {
    if raws == [] then []
    else
      var line := CleanLine(raws[|raws| - 1]);
      PathLines(raws[..|raws| - 1]) + (if line == [] then [] else [line])
  }

  /** The second loop: the whitespace-separated tokens of the lines, in order. */
  function Tokens(lines: seq<string>): (r: seq<string>)
    ensures forall i :: 0 <= i < |r| ==> r[i] != [] && NoSpace(r[i])
  {
    if lines == [] then [] else Tokens(lines[..|lines| - 1]) + SplitWs(lines[|lines| - 1])
  }

  /** `_extract_paths(body)` */
  function Paths(body: string): seq<string>
  {
    Tokens(PathLines(SplitLines(body)))
  }

  /** `_extract_paths`: the cleaning loop, then the splitting loop. */
  method ExtractPaths(body: string) returns (paths: seq<string>)
    ensures paths == Paths(body)
    ensures forall i :: 0 <= i < |paths| ==> paths[i] != [] && NoSpace(paths[i])
  {
    var lines := CollectLines(SplitLines(body));
    paths := SplitAll(lines);
  }

  /** The cleaning loop: each raw line stripped, trimmed of its continuation mark, kept when non-empty. */
  method CollectLines(raws: seq<string>) returns (lines: seq<string>)
    ensures lines == PathLines(raws)
  {
    lines := [];
    for i := 0 to |raws|
      invariant lines == PathLines(raws[..i])
    {
      assert raws[..i + 1][..i] == raws[..i];
      var line := CleanOne(raws[i]);
      if line != [] {
        lines := lines + [line];
      }
    }
    assert raws[..|raws|] == raws;
  }

  /** The body of the cleaning loop for one raw line. */
  method CleanOne(raw: string) returns (line: string)
    ensures line == CleanLine(raw)
  {
    line := Strip(raw);
    if line == [] {
      return;
    }
    line := DropMark(line, '\\');
    line := DropMark(line, ';');
  }

  /** `if line.endswith(c): line = line[:-1].rstrip()` */
  method DropMark(line: string, c: char) returns (r: string)
    ensures r == DropTrailing(line, c)
  {
    r := line;
    if EndsWith(line, [c]) {
      r := RStrip(line[..|line| - 1]);
    }
  }

  /** The splitting loop. */
  method SplitAll(lines: seq<string>) returns (paths: seq<string>)
    ensures paths == Tokens(lines)
  {
    paths := [];
    for i := 0 to |lines|
      invariant paths == Tokens(lines[..i])
    {
      assert lines[..i + 1][..i] == lines[..i];
      // `str.split()` never yields an empty token, so the `if tok` filter keeps them all.
      paths := paths + SplitWs(lines[i]);
    }
    assert lines[..|lines|] == lines;
  }

  /** A path that a list body carries through unchanged. */
  predicate PlainPath(p: string)
  {
    p != [] && NoSpace(p) && p[|p| - 1] != '\\' && p[|p| - 1] != ';'
  }

  /** rstrip() removes exactly a trailing run of blanks after a non-space character. */
  lemma {:induction false} RStripBlanks(s: string, b: string)
    requires s != [] && !IsSpace(s[|s| - 1])
    requires forall i :: 0 <= i < |b| ==> b[i] == ' '
    ensures RStrip(s + b) == s
    decreases |b|
  {
    if b == [] {
      assert s + b == s;
    } else {
      var c := s + b;
      assert c[..|c| - 1] == s + b[..|b| - 1];
      RStripBlanks(s, b[..|b| - 1]);
    }
  }

  /** A continued line `<indent><path> \` gives back the path. */
  lemma CleanContinued(indent: string, p: string)
    requires forall i :: 0 <= i < |indent| ==> indent[i] == ' '
    requires PlainPath(p)
    ensures CleanLine(indent + p + " \\") == p
  {
    var core := p + " \\";
    StripPadded(indent, core, indent + p + " \\");
    DropTrailingMark(core, p, " ", '\\');
    DropTrailingNone(p, ';');
  }

  lemma StripPadded(indent: string, s: string, t: string)
    requires forall i :: 0 <= i < |indent| ==> indent[i] == ' '
    requires s != [] && !IsSpace(s[0]) && !IsSpace(s[|s| - 1])
    requires t == indent + s
    ensures Strip(t) == s
  {
    StripAround(indent, s, []);
    assert t == indent + s + [];
  }

  /** The line `<indent><path>` gives back the path. */
  lemma CleanBare(indent: string, p: string)
    requires forall i :: 0 <= i < |indent| ==> indent[i] == ' '
    requires PlainPath(p)
    ensures CleanLine(indent + p) == p
  {
    assert Strip(indent + p) == p by {
      StripAround(indent, p, []);
      assert indent + p == indent + p + [];
    }
    DropTrailingNone(p, '\\');
    DropTrailingNone(p, ';');
  }

  /** The line ` \` right after `[list` leaves nothing. */
  lemma CleanOpening()
    ensures CleanLine(" \\") == []
  {
    assert Strip(" \\") == "\\" by {
      StripAround(" ", "\\", []);
      assert " \\" == " " + "\\" + [];
    }
    assert DropTrailing("\\", '\\') == [];
    DropTrailingNone([], ';');
  }

  /** A trailing ';' before the continuation mark goes too. */
  lemma CleanDropsBoth(p: string)
    requires PlainPath(p)
    ensures CleanLine(p + "; \\") == p
  {
    StripPadded([], p + "; \\", p + "; \\");
    DropTrailingMark(p + "; \\", p + ";", " ", '\\');
    DropTrailingMark(p + ";", p, [], ';');
  }

  /** Only one trailing '\' is dropped. */
  lemma CleanDropsOneBackslash(p: string)
    requires PlainPath(p)
    ensures CleanLine(p + "\\\\") == p + "\\"
  {
    StripPadded([], p + "\\\\", p + "\\\\");
    DropTrailingMark(p + "\\\\", p + "\\", [], '\\');
    DropTrailingNone(p + "\\", ';');
  }

  /** The ';' is dropped after the '\', so a '\' before a ';' stays. */
  lemma CleanKeepsBackslashBeforeSemicolon(p: string)
    requires PlainPath(p)
    ensures CleanLine(p + "\\;") == p + "\\"
  {
    StripPadded([], p + "\\;", p + "\\;");
    DropTrailingNone(p + "\\;", '\\');
    DropTrailingMark(p + "\\;", p + "\\", [], ';');
  }

  /** The continued lines of a multi-line list, one per path. */
  function ContinuedLines(paths: seq<string>, indent: string): (r: seq<string>)
    ensures |r| == |paths|
  {
    if paths == [] then [] else ContinuedLines(paths[..|paths| - 1], indent) + [indent + paths[|paths| - 1] + " \\"]
  }

  /**
   * The body of a multi-line list written the usual way: ` \` after `[list`,
   * one `<indent><path> \` line per path, and the closing ']' on a line of its own.
   */
  function ListBody(paths: seq<string>, indent: string): string
  {
    Unlines([" \\"] + ContinuedLines(paths, indent))
  }

  lemma {:induction false} PathLinesOfList(paths: seq<string>, indent: string)
    requires forall i :: 0 <= i < |indent| ==> indent[i] == ' '
    requires forall i :: 0 <= i < |paths| ==> PlainPath(paths[i])
    ensures PathLines([" \\"] + ContinuedLines(paths, indent)) == paths
  {
    if paths == [] {
      CleanOpening();
      PathLinesSnoc([], " \\");
      assert [" \\"] + ContinuedLines(paths, indent) == [] + [" \\"];
    } else {
      var init := paths[..|paths| - 1];
      var last := paths[|paths| - 1];
      var line := indent + last + " \\";
      assert [" \\"] + ContinuedLines(paths, indent) == ([" \\"] + ContinuedLines(init, indent)) + [line];
      CleanContinued(indent, last);
      PathLinesSnoc([" \\"] + ContinuedLines(init, indent), line);
      PathLinesOfList(init, indent);
      FrontLast(paths);
    }
  }

  /** One more raw line adds its cleaned text when that is not empty. */
  lemma PathLinesSnoc(raws: seq<string>, raw: string)
    ensures PathLines(raws + [raw]) == PathLines(raws) + (if CleanLine(raw) == [] then [] else [CleanLine(raw)])
  {
    assert (raws + [raw])[..|raws|] == raws;
  }

  /** Plain paths split back into themselves. */
  lemma {:induction false} TokensOfPaths(paths: seq<string>)
    requires forall i :: 0 <= i < |paths| ==> PlainPath(paths[i])
    ensures Tokens(paths) == paths
  {
    if paths != [] {
      TokensOfPaths(paths[..|paths| - 1]);
      SplitWsWord(paths[|paths| - 1]);
      FrontLast(paths);
    }
  }

  /** `_extract_paths` reads back every path of a multi-line list, in order. */
  lemma PathsOfListBody(paths: seq<string>, indent: string)
    requires forall i :: 0 <= i < |indent| ==> indent[i] == ' '
    requires forall i :: 0 <= i < |paths| ==> PlainPath(paths[i])
    ensures Paths(ListBody(paths, indent)) == paths
  {
    var ls := [" \\"] + ContinuedLines(paths, indent);
    forall i | 0 <= i < |ls| ensures NoLineBreak(ls[i]) {
      if i > 0 {
        ContinuedLineIs(paths, indent, i - 1);
        NoSpaceNoLineBreak(paths[i - 1]);
        assert ls[i] == ContinuedLines(paths, indent)[i - 1];
      }
    }
    SplitLinesUnlines(ls);
    PathLinesOfList(paths, indent);
    TokensOfPaths(paths);
  }

  lemma {:induction false} ContinuedLineIs(paths: seq<string>, indent: string, i: nat)
    requires i < |paths|
    ensures ContinuedLines(paths, indent)[i] == indent + paths[i] + " \\"
  {
    if i < |paths| - 1 {
      ContinuedLineIs(paths[..|paths| - 1], indent, i);
    }
  }

  // ---------------------------------------------------------------------
  // Layout
  // ---------------------------------------------------------------------

  /** The lines written before any block. */
  function Header(section: string, author: string, created: string): seq<string>
  {
    ["[" + section + "]", "# Author: " + author, "# Created: " + created, ""]
  }

  /** Each path prefixed by the continuation padding. */
  function Indented(paths: seq<string>, pad: string): (r: seq<string>)
    ensures |r| == |paths| && forall i :: 0 <= i < |paths| ==> r[i] == pad + paths[i]
  {
    if paths == [] then [] else Indented(paths[..|paths| - 1], pad) + [pad + paths[|paths| - 1]]
  }

  /** The lines of one variable; nothing when it has no paths. */
  function Entry(key: string, paths: seq<string>, nameWidth: int, indentWidth: int): seq<string>
  {
    if paths == [] then []
    else [LJust(key, nameWidth) + " = " + paths[0]] + Indented(paths[1..], Spaces(indentWidth)) + [""]
  }

  /** The entries of the blocks, in the order they were found. */
  function Entries(blocks: seq<Block>, nameWidth: int, indentWidth: int): seq<string>
  {
    if blocks == [] then []
    else
      var b := blocks[|blocks| - 1];
      Entries(blocks[..|blocks| - 1], nameWidth, indentWidth) + Entry(Strip(b.key), Paths(b.body), nameWidth, indentWidth)
  }

  /** `while out_lines and out_lines[-1] == "": out_lines.pop()` */
  function TrimBlank(ls: seq<string>): (r: seq<string>)
    ensures |r| <= |ls| && r == ls[..|r|]
    ensures r == [] || r[|r| - 1] != ""
    ensures forall i :: |r| <= i < |ls| ==> ls[i] == ""
  {
    if ls != [] && ls[|ls| - 1] == "" then TrimBlank(ls[..|ls| - 1]) else ls
  }

  /** The lines of the cfg text. */
  function CfgLines(text: string, nameWidth: int, indentWidth: int, author: string, created: string, section: string): seq<string>
  {
    TrimBlank(Header(section, author, created) + Entries(Scan(Uncommented(text)), nameWidth, indentWidth))
  }

  /** `tcl_to_cfg(text, ...)` */
  function Cfg(text: string, nameWidth: int, indentWidth: int, author: string, created: string, section: string): string
  {
    Join(CfgLines(text, nameWidth, indentWidth, author, created, section), "\n") + "\n"
  }

  /** The lines of one block are appended: the key line, the indented paths, the blank line. */
  method AppendEntry(outLines: seq<string>, key: string, paths: seq<string>, nameWidth: int, indentWidth: int)
    returns (out: seq<string>)
    ensures out == outLines + Entry(key, paths, nameWidth, indentWidth)
  {
    if paths == [] {
      return outLines;
    }
    var lhs := LJust(key, nameWidth);
    out := outLines + [lhs + " = " + paths[0]];
    var pad := Spaces(indentWidth);
    ghost var top := out;
    for j := 1 to |paths|
      invariant out == top + Indented(paths[1..j], pad)
    {
      IndentedStep(top, out, paths, j, pad);
      out := out + [pad + paths[j]];
    }
    EntryAssembled(outLines, lhs + " = " + paths[0], Indented(paths[1..], pad), out);
    out := out + [""];
  }

  lemma IndentedStep(top: seq<string>, out: seq<string>, paths: seq<string>, j: nat, pad: string)
    requires 1 <= j < |paths|
    requires out == top + Indented(paths[1..j], pad)
    ensures out + [pad + paths[j]] == top + Indented(paths[1..j + 1], pad)
  {
    var front := paths[1..j + 1];
    assert front[..|front| - 1] == paths[1..j] && front[|front| - 1] == paths[j];
    ConcatAssoc(top, Indented(paths[1..j], pad), [pad + paths[j]]);
  }

  lemma EntryAssembled(outLines: seq<string>, first: string, rest: seq<string>, out: seq<string>)
    requires out == outLines + [first] + rest
    ensures out + [""] == outLines + ([first] + rest + [""])
  {
  }

  /** The trimming loop. */
  method TrimTrailingBlanks(ls: seq<string>) returns (r: seq<string>)
    ensures r == TrimBlank(ls)
  {
    r := ls;
    while r != [] && r[|r| - 1] == ""
      invariant TrimBlank(r) == TrimBlank(ls)
      decreases |r|
    {
      r := r[..|r| - 1];
    }
  }

  /** One more block's entry extends the output by that entry. */
  lemma EntriesStep(outLines: seq<string>, prev: seq<string>, out: seq<string>, blocks: seq<Block>, i: nat,
                    nameWidth: int, indentWidth: int)
    requires i < |blocks|
    requires prev == outLines + Entries(blocks[..i], nameWidth, indentWidth)
    requires out == prev + Entry(Strip(blocks[i].key), Paths(blocks[i].body), nameWidth, indentWidth)
    ensures out == outLines + Entries(blocks[..i + 1], nameWidth, indentWidth)
  {
    var front := blocks[..i + 1];
    assert front[..i] == blocks[..i] && front[i] == blocks[i];
    EntriesLast(front, nameWidth, indentWidth);
    ConcatAssoc(outLines, Entries(blocks[..i], nameWidth, indentWidth),
      Entry(Strip(blocks[i].key), Paths(blocks[i].body), nameWidth, indentWidth));
  }

  lemma EntriesLast(blocks: seq<Block>, nameWidth: int, indentWidth: int)
    requires |blocks| > 0
    ensures Entries(blocks, nameWidth, indentWidth) == Entries(blocks[..|blocks| - 1], nameWidth, indentWidth)
      + Entry(Strip(blocks[|blocks| - 1].key), Paths(blocks[|blocks| - 1].body), nameWidth, indentWidth)
  {
  }

  /** The loop over the matches. */
  method AppendEntries(outLines: seq<string>, blocks: seq<Block>, nameWidth: int, indentWidth: int)
    returns (out: seq<string>)
    ensures out == outLines + Entries(blocks, nameWidth, indentWidth)
  {
    out := outLines;
    for i := 0 to |blocks|
      invariant out == outLines + Entries(blocks[..i], nameWidth, indentWidth)
    {
      var key := Strip(blocks[i].key);
      var body := blocks[i].body;
      var paths := ExtractPaths(body);
      ghost var prev := out;
      out := AppendEntry(out, key, paths, nameWidth, indentWidth);
      EntriesStep(outLines, prev, out, blocks, i, nameWidth, indentWidth);
    }
    assert blocks[..|blocks|] == blocks;
  }

  /** `tcl_to_cfg`, with the creation date given. */
  method TclToCfg(text: string, nameWidth: int, indentWidth: int, author: string, created: string, section: string)
    returns (cfg: string)
    ensures cfg == Cfg(text, nameWidth, indentWidth, author, created, section)
  {
    var cleaned := DropComments(text);
    var outLines: seq<string> := [];
    outLines := outLines + ["[" + section + "]"];
    outLines := outLines + ["# Author: " + author];
    outLines := outLines + ["# Created: " + created];
    outLines := outLines + [""];
    assert outLines == Header(section, author, created);
    outLines := AppendEntries(outLines, Scan(cleaned), nameWidth, indentWidth);
    outLines := TrimTrailingBlanks(outLines);
    cfg := Join(outLines, "\n") + "\n";
  }

  // ---------------------------------------------------------------------
  // What the cfg text looks like
  // ---------------------------------------------------------------------

  /** Lines are written at most once, in order: the number of lines of each block's entry. */
  function EntrySize(b: Block): nat
  {
    var paths := Paths(b.body);
    if paths == [] then 0 else |paths| + 1
  }

  /** A block with no paths writes nothing; any other writes its paths plus the key line's partner blank. */
  lemma {:induction false} EntriesSize(blocks: seq<Block>, nameWidth: int, indentWidth: int)
    ensures |Entries(blocks, nameWidth, indentWidth)| == SumNat(blocks, EntrySize)
  {
    if blocks != [] {
      var b := blocks[|blocks| - 1];
      EntriesSize(blocks[..|blocks| - 1], nameWidth, indentWidth);
      EntriesLast(blocks, nameWidth, indentWidth);
      EntryLength(Strip(b.key), Paths(b.body), nameWidth, indentWidth);
      SumNatSnoc(blocks, EntrySize);
    }
  }

  lemma EntryLength(key: string, paths: seq<string>, nameWidth: int, indentWidth: int)
    ensures |Entry(key, paths, nameWidth, indentWidth)| == if paths == [] then 0 else |paths| + 1
  {
  }

  /**
   * The lines of one variable read back: `split()` of the first gives the
   * key, "=" and the first path; each further line is the padding followed
   * by one path; a blank line closes the entry.
   */
  lemma EntryReadsBack(key: string, paths: seq<string>, nameWidth: int, indentWidth: int)
    requires key != [] && NoSpace(key)
    requires |paths| > 0 && forall i :: 0 <= i < |paths| ==> paths[i] != [] && NoSpace(paths[i])
    ensures var e := Entry(key, paths, nameWidth, indentWidth);
      |e| == |paths| + 1
      && SplitWs(e[0]) == [key, "=", paths[0]]
      && (forall i :: 1 <= i < |paths| ==> e[i] == Spaces(indentWidth) + paths[i] && Strip(e[i]) == paths[i])
      && e[|paths|] == ""
  {
    var pad := Spaces(indentWidth);
    KeyLineSplits(key, paths[0], nameWidth);
    IndentedReadsBack(paths[1..], pad);
    EntryLinesAt(Entry(key, paths, nameWidth, indentWidth), LJust(key, nameWidth) + " = " + paths[0],
      Indented(paths[1..], pad), paths, pad);
  }

  /** Each indented line strips back to its path. */
  lemma IndentedReadsBack(paths: seq<string>, pad: string)
    requires forall i :: 0 <= i < |paths| ==> paths[i] != [] && NoSpace(paths[i])
    requires forall i :: 0 <= i < |pad| ==> pad[i] == ' '
    ensures forall i :: 0 <= i < |paths| ==> Strip(Indented(paths, pad)[i]) == paths[i]
  {
    forall i | 0 <= i < |paths|
      ensures Strip(Indented(paths, pad)[i]) == paths[i]
    {
      NoSpaceEnds(paths[i]);
      StripPadded(pad, paths[i], pad + paths[i]);
    }
  }

  lemma EntryLinesAt(e: seq<string>, first: string, ind: seq<string>, paths: seq<string>, pad: string)
    requires |paths| > 0 && e == [first] + ind + [""]
    requires |ind| == |paths| - 1
    requires forall i :: 0 <= i < |ind| ==> ind[i] == pad + paths[1..][i] && Strip(ind[i]) == paths[1..][i]
    ensures |e| == |paths| + 1 && e[0] == first && e[|paths|] == ""
    ensures forall i :: 1 <= i < |paths| ==> e[i] == pad + paths[i] && Strip(e[i]) == paths[i]
  {
    forall i | 1 <= i < |paths|
      ensures e[i] == pad + paths[i] && Strip(e[i]) == paths[i]
    {
      assert e[i] == ind[i - 1];
    }
  }

  lemma NoSpaceEnds(p: string)
    requires p != [] && NoSpace(p)
    ensures !IsSpace(p[0]) && !IsSpace(p[|p| - 1])
  {
  }

  /** `split()` of the key line gives the key, "=" and the first path. */
  lemma KeyLineSplits(key: string, first: string, nameWidth: int)
    requires key != [] && NoSpace(key)
    requires first != [] && NoSpace(first)
    ensures SplitWs(LJust(key, nameWidth) + " = " + first) == [key, "=", first]
  {
    var fill := if |key| >= nameWidth then "" else Spaces(nameWidth - |key|);
    var gap := fill + " ";
    KeyLineParts(key, nameWidth, fill, first, LJust(key, nameWidth) + " = " + first);
    KeyLineSplitsAt(key, gap, first, LJust(key, nameWidth) + " = " + first);
  }

  lemma KeyLineParts(key: string, nameWidth: int, fill: string, first: string, t: string)
    requires fill == if |key| >= nameWidth then "" else Spaces(nameWidth - |key|)
    requires t == LJust(key, nameWidth) + " = " + first
    ensures t == key + (fill + " ") + ("=" + " " + first)
    ensures forall i :: 0 <= i < |fill + " "| ==> IsSpace((fill + " ")[i])
  {
  }

  lemma KeyLineSplitsAt(key: string, gap: string, first: string, t: string)
    requires key != [] && NoSpace(key)
    requires first != [] && NoSpace(first)
    requires gap != [] && forall i :: 0 <= i < |gap| ==> IsSpace(gap[i])
    requires t == key + gap + ("=" + " " + first)
    ensures SplitWs(t) == [key, "=", first]
  {
    SplitWsCons(key, gap, "=" + " " + first);
    SplitWsCons("=", " ", first);
    SplitWsWord(first);
  }

  /** Every line is blank or ends in a character that is not whitespace. */
  predicate EndsClean(ls: seq<string>)
  {
    forall i :: 0 <= i < |ls| ==> ls[i] == [] || !IsSpace(ls[i][|ls[i]| - 1])
  }

  lemma EndsCleanAppend(a: seq<string>, b: seq<string>)
    requires EndsClean(a) && EndsClean(b)
    ensures EndsClean(a + b)
  {
    forall i | 0 <= i < |a + b|
      ensures (a + b)[i] == [] || !IsSpace((a + b)[i][|(a + b)[i]| - 1])
    {
      if i >= |a| {
        assert (a + b)[i] == b[i - |a|];
      }
    }
  }

  lemma EntryLineEnds(key: string, paths: seq<string>, nameWidth: int, indentWidth: int)
    requires forall i :: 0 <= i < |paths| ==> paths[i] != [] && NoSpace(paths[i])
    ensures EndsClean(Entry(key, paths, nameWidth, indentWidth))
  {
    var e := Entry(key, paths, nameWidth, indentWidth);
    if paths != [] {
      forall i | 0 <= i < |e|
        ensures e[i] == [] || !IsSpace(e[i][|e[i]| - 1])
      {
        if i == 0 {
          LastOfAppend(LJust(key, nameWidth) + " = ", paths[0]);
        } else if i < |paths| {
          assert e[i] == Indented(paths[1..], Spaces(indentWidth))[i - 1];
          LastOfAppend(Spaces(indentWidth), paths[i]);
        }
      }
    }
  }

  lemma LastOfAppend(a: string, p: string)
    requires p != []
    ensures (a + p)[|a + p| - 1] == p[|p| - 1]
  {
  }

  /** Every line the blocks write is blank or ends in a character that is not whitespace. */
  lemma {:induction false} EntriesLineEnds(blocks: seq<Block>, nameWidth: int, indentWidth: int)
    ensures EndsClean(Entries(blocks, nameWidth, indentWidth))
  {
    if blocks != [] {
      var b := blocks[|blocks| - 1];
      EntriesLineEnds(blocks[..|blocks| - 1], nameWidth, indentWidth);
      EntryLineEnds(Strip(b.key), Paths(b.body), nameWidth, indentWidth);
      EntriesLast(blocks, nameWidth, indentWidth);
      EndsCleanAppend(Entries(blocks[..|blocks| - 1], nameWidth, indentWidth),
        Entry(Strip(b.key), Paths(b.body), nameWidth, indentWidth));
    }
  }

  /**
   * The cfg holds at least the three header lines, ends with a line that is
   * not blank, and is those lines each followed by a newline.
   */
  lemma CfgShape(text: string, nameWidth: int, indentWidth: int, author: string, created: string, section: string)
    ensures var ls := CfgLines(text, nameWidth, indentWidth, author, created, section);
      |ls| >= 3 && ls[..3] == Header(section, author, created)[..3]
      && ls[|ls| - 1] != ""
      && Cfg(text, nameWidth, indentWidth, author, created, section) == Unlines(ls)
  {
    var ls := CfgLines(text, nameWidth, indentWidth, author, created, section);
    TrimAfterHeader(Header(section, author, created), Entries(Scan(Uncommented(text)), nameWidth, indentWidth), ls);
    JoinUnlines(ls);
  }

  /** Trimming blank lines never reaches into a header whose third line is not blank. */
  lemma TrimAfterHeader(h: seq<string>, es: seq<string>, ls: seq<string>)
    requires |h| == 4 && h[2] != "" && h[3] == ""
    requires ls == TrimBlank(h + es)
    ensures |ls| >= 3 && ls[..3] == h[..3] && ls[|ls| - 1] != ""
    ensures |ls| - 1 == 2 || (|ls| - 1 >= 4 && ls[|ls| - 1] == es[|ls| - 5])
  {
    var all := h + es;
    assert all[2] == h[2];
    assert ls[..3] == all[..3] == h[..3];
    var k := |ls| - 1;
    assert ls[k] == all[k];
    assert k != 3 by {
      assert all[3] == h[3];
    }
  }

  /** The cfg starts with the section line, the author line and the date line. */
  lemma CfgStartsWithHeader(text: string, nameWidth: int, indentWidth: int, author: string, created: string, section: string)
    ensures StartsWith(Cfg(text, nameWidth, indentWidth, author, created, section),
      "[" + section + "]\n# Author: " + author + "\n# Created: " + created + "\n")
  {
    var ls := CfgLines(text, nameWidth, indentWidth, author, created, section);
    CfgShape(text, nameWidth, indentWidth, author, created, section);
    var top := "[" + section + "]\n# Author: " + author + "\n# Created: " + created + "\n";
    HeaderText(section, author, created, ls[..3], top);
    assert ls == ls[..3] + ls[3..];
    UnlinesAppend(ls[..3], ls[3..]);
    StartsWithAppend(top, Unlines(ls[3..]));
  }

  /** The three header lines, each followed by a newline. */
  lemma HeaderText(section: string, author: string, created: string, h: seq<string>, top: string)
    requires h == Header(section, author, created)[..3]
    requires top == "[" + section + "]\n# Author: " + author + "\n# Created: " + created + "\n"
    ensures Unlines(h) == top
  {
    assert h == ["[" + section + "]", "# Author: " + author, "# Created: " + created];
    UnlinesThree("[" + section + "]", "# Author: " + author, "# Created: " + created);
  }

  /**
   * The cfg ends with exactly one newline: the last line written is not
   * blank and (unless the date itself ends with a newline) does not end in one.
   */
  lemma CfgEndsWithOneNewline(text: string, nameWidth: int, indentWidth: int, author: string, created: string, section: string)
    requires created == [] || created[|created| - 1] != '\n'
    ensures var c := Cfg(text, nameWidth, indentWidth, author, created, section);
      |c| >= 2 && c[|c| - 1] == '\n' && c[|c| - 2] != '\n'
  {
    CfgShape(text, nameWidth, indentWidth, author, created, section);
    EntriesLineEnds(Scan(Uncommented(text)), nameWidth, indentWidth);
    EndsOnce(Header(section, author, created), Entries(Scan(Uncommented(text)), nameWidth, indentWidth),
      CfgLines(text, nameWidth, indentWidth, author, created, section), created);
  }

  lemma EndsOnce(h: seq<string>, es: seq<string>, ls: seq<string>, created: string)
    requires |h| == 4 && h[2] == "# Created: " + created && h[3] == ""
    requires created == [] || created[|created| - 1] != '\n'
    requires EndsClean(es) && ls == TrimBlank(h + es)
    ensures var c := Unlines(ls);
      |c| >= 2 && c[|c| - 1] == '\n' && c[|c| - 2] != '\n'
  {
    TrimAfterHeader(h, es, ls);
    var last := ls[|ls| - 1];
    assert last[|last| - 1] != '\n' by {
      if |ls| - 1 == 2 {
        assert last == "# Created: " + created;
      } else {
        assert last == es[|ls| - 5];
      }
    }
    UnlinesEnd(ls);
  }

  /** Lines whose last is neither blank nor ends in a newline are written with exactly one final newline. */
  lemma UnlinesEnd(ls: seq<string>)
    requires |ls| > 0 && ls[|ls| - 1] != "" && ls[|ls| - 1][|ls[|ls| - 1]| - 1] != '\n'
    ensures var c := Unlines(ls);
      |c| >= 2 && c[|c| - 1] == '\n' && c[|c| - 2] != '\n'
  {
    var k := |ls| - 1;
    var last := ls[k];
    assert ls == ls[..k] + [last];
    UnlinesAppend(ls[..k], [last]);
    assert Unlines([last]) == last + "\n" by {
      assert [last][1..] == [];
    }
  }

  /** A file with nothing but comments gives the header alone. */
  lemma CommentsOnly(text: string, nameWidth: int, indentWidth: int, author: string, created: string, section: string)
    requires forall i :: 0 <= i < |SplitLines(text)| ==> !IsCode(SplitLines(text)[i])
    ensures Cfg(text, nameWidth, indentWidth, author, created, section)
      == "[" + section + "]\n# Author: " + author + "\n# Created: " + created + "\n"
  {
    OnlyComments(SplitLines(text));
    assert Uncommented(text) == "";
    var h := Header(section, author, created);
    assert Entries(Scan(""), nameWidth, indentWidth) == [];
    assert h + [] == h;
    var ls := CfgLines(text, nameWidth, indentWidth, author, created, section);
    assert ls == h[..3] by {
      assert TrimBlank(h) == TrimBlank(h[..3]);
    }
    CfgShape(text, nameWidth, indentWidth, author, created, section);
    HeaderText(section, author, created, ls, "[" + section + "]\n# Author: " + author + "\n# Created: " + created + "\n");
  }
}
