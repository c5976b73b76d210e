/**
 * Python string primitives that the three report tools lean on: the
 * whitespace class of `str.isspace()` (which is also what the regex class
 * `\s` matches), `strip`/`lstrip`/`rstrip`, `split()`, `splitlines()`,
 * `"\n".join`, `ljust`, the code-point ordering of `str`, and the decimal
 * tokens `[-+]?\d+(\.\d+)?` that the tools read numbers from.
 */
module Text {

  datatype Option<+T> = None | Some(value: T)

  datatype Result<+R, +E> = Success(value: R) | Failure(error: E)

  // ---------------------------------------------------------------------
  // Character classes
  // ---------------------------------------------------------------------

  /** `str.isspace()`, and the regex class `\s` on str patterns. */
  predicate IsSpace(c: char)
  {
    c == ' ' || ('\t' <= c <= '\r') || ('\U{1C}' <= c <= '\U{1F}')
    || c == '\U{85}' || c == '\U{A0}' || c == '\U{1680}'
    || ('\U{2000}' <= c <= '\U{200A}') || c == '\U{2028}' || c == '\U{2029}'
    || c == '\U{202F}' || c == '\U{205F}' || c == '\U{3000}'
  }

  /** The line boundaries `str.splitlines()` splits on ("\r\n" counts once). */
  predicate IsLineBreak(c: char)
  {
    ('\n' <= c <= '\r') || ('\U{1C}' <= c <= '\U{1E}')
    || c == '\U{85}' || c == '\U{2028}' || c == '\U{2029}'
  }

  /** The regex class `\d`, restricted to ASCII digits. */
  predicate IsDigit(c: char)
  {
    '0' <= c <= '9'
  }

  /** The regex class `\w`, restricted to ASCII. */
  predicate IsWordChar(c: char)
  {
    ('a' <= c <= 'z') || ('A' <= c <= 'Z') || IsDigit(c) || c == '_'
  }

  predicate NoSpace(s: string)
  {
    forall i :: 0 <= i < |s| ==> !IsSpace(s[i])
  }

  predicate NoLineBreak(s: string)
  {
    forall i :: 0 <= i < |s| ==> !IsLineBreak(s[i])
  }

  predicate AllDigits(s: string)
  {
    forall i :: 0 <= i < |s| ==> IsDigit(s[i])
  }

  // ---------------------------------------------------------------------
  // Runs, prefixes, searching
  // ---------------------------------------------------------------------

  /** Length of the leading run of whitespace. */
  function SpaceRun(s: string): (n: nat)
    ensures n <= |s|
    ensures forall i :: 0 <= i < n ==> IsSpace(s[i])
    ensures n < |s| ==> !IsSpace(s[n])
  {
    if s != [] && IsSpace(s[0]) then 1 + SpaceRun(s[1..]) else 0
  }

  /** Length of the leading run of non-whitespace. */
  function NonSpaceRun(s: string): (n: nat)
    ensures n <= |s|
    ensures forall i :: 0 <= i < n ==> !IsSpace(s[i])
    ensures n < |s| ==> IsSpace(s[n])
  {
    if s != [] && !IsSpace(s[0]) then 1 + NonSpaceRun(s[1..]) else 0
  }

  /** Length of the trailing run of whitespace. */
  function TrailingSpaceRun(s: string): (n: nat)
    ensures n <= |s|
    ensures forall i :: |s| - n <= i < |s| ==> IsSpace(s[i])
    ensures n < |s| ==> !IsSpace(s[|s| - n - 1])
  {
    if s != [] && IsSpace(s[|s| - 1]) then 1 + TrailingSpaceRun(s[..|s| - 1]) else 0
  }

  /** Length of the leading run of ASCII digits. */
  function DigitRun(s: string): (n: nat)
    ensures n <= |s|
    ensures forall i :: 0 <= i < n ==> IsDigit(s[i])
    ensures n < |s| ==> !IsDigit(s[n])
  {
    if s != [] && IsDigit(s[0]) then 1 + DigitRun(s[1..]) else 0
  }

  /** Length of the leading run of regex `\w` characters. */
  function WordRun(s: string): (n: nat)
    ensures n <= |s|
    ensures forall i :: 0 <= i < n ==> IsWordChar(s[i])
    ensures n < |s| ==> !IsWordChar(s[n])
  {
    if s != [] && IsWordChar(s[0]) then 1 + WordRun(s[1..]) else 0
  }

  /** How far the regex `.` reaches from the start of s: up to the first '\n'. */
  function DotRun(s: string): (n: nat)
    ensures n <= |s|
    ensures forall i :: 0 <= i < n ==> s[i] != '\n'
    ensures n < |s| ==> s[n] == '\n'
  {
    if s != [] && s[0] != '\n' then 1 + DotRun(s[1..]) else 0
  }

  /** Length of the leading run of characters that are not line boundaries. */
  function LineLen(s: string): (n: nat)
    ensures n <= |s|
    ensures NoLineBreak(s[..n])
    ensures n < |s| ==> IsLineBreak(s[n])
  {
    if s != [] && !IsLineBreak(s[0]) then
      var m := LineLen(s[1..]);
      assert s[..1 + m] == [s[0]] + s[1..][..m];
      1 + m
    else 0
  }

  predicate StartsWith(s: string, p: string)
  {
    |p| <= |s| && s[..|p|] == p
  }

  predicate EndsWith(s: string, p: string)
  {
    |p| <= |s| && s[|s| - |p|..] == p
  }

  /** `sub` occurs in `s` at position k. */
  predicate OccursAt(s: string, sub: string, k: nat)
  {
    k <= |s| && StartsWith(s[k..], sub)
  }

  /** Index of the first occurrence of `sub` in `s` (`str.find`), if any. */
  function Find(s: string, sub: string): (r: Option<nat>)
    ensures r.Some? ==> r.value + |sub| <= |s| && s[r.value..r.value + |sub|] == sub
    ensures r.Some? ==> forall k: nat :: k < r.value ==> !OccursAt(s, sub, k)
    ensures r.None? ==> forall k: nat :: !OccursAt(s, sub, k)
  {
    if StartsWith(s, sub) then Some(0)
    else if s == [] then None
    else match Find(s[1..], sub)
      case Some(i) =>
        OccursShift(s, sub);
        Some(i + 1)
      case None =>
        OccursShift(s, sub);
        None
  }

  lemma OccursShift(s: string, sub: string)
    requires s != []
    ensures forall k: nat :: 1 <= k ==> (OccursAt(s, sub, k) <==> OccursAt(s[1..], sub, k - 1))
  {
    forall k: nat | 1 <= k <= |s| ensures s[k..] == s[1..][k - 1..] { }
  }

  /** `find` reports no occurrence when `sub` occurs nowhere in `s`. */
  lemma {:induction false} FindAbsent(s: string, sub: string)
    requires forall k: nat :: !OccursAt(s, sub, k)
    ensures Find(s, sub).None?
    decreases |s|
  {
    assert !OccursAt(s, sub, 0);
    if s != [] {
      OccursShift(s, sub);
      assert forall k: nat :: !OccursAt(s[1..], sub, k) by {
        forall k: nat ensures !OccursAt(s[1..], sub, k) {
          assert !OccursAt(s, sub, k + 1);
        }
      }
      FindAbsent(s[1..], sub);
    }
  }

  /** `sub in s` for strings. */
  predicate Contains(s: string, sub: string)
  {
    Find(s, sub).Some?
  }

  /** Index of the last occurrence of c in s, if any. */
  function LastIndexOf(s: string, c: char): (r: Option<nat>)
    ensures r.Some? ==> r.value < |s| && s[r.value] == c && forall k :: r.value < k < |s| ==> s[k] != c
    ensures r.None? ==> c !in s
  {
    if s == [] then None
    else if s[|s| - 1] == c then Some(|s| - 1)
    else LastIndexOf(s[..|s| - 1], c)
  }

  /** Index of the first occurrence of c in s, if any. */
  function IndexOf(s: string, c: char): (r: Option<nat>)
    ensures r.Some? ==> r.value < |s| && s[r.value] == c && c !in s[..r.value]
    ensures r.None? ==> c !in s
  {
    if s == [] then None
    else if s[0] == c then Some(0)
    else match IndexOf(s[1..], c)
      case Some(i) =>
        assert s[..i + 1] == [s[0]] + s[1..][..i];
        Some(i + 1)
      case None => None
  }

  // ---------------------------------------------------------------------
  // strip, split, splitlines, join, ljust
  // ---------------------------------------------------------------------

  /** `str.lstrip()` */
  function LStrip(s: string): (r: string)
    ensures r == s[SpaceRun(s)..]
    ensures r == [] || !IsSpace(r[0])
  {
    s[SpaceRun(s)..]
  }

  /** `str.rstrip()` */
  function RStrip(s: string): (r: string)
    ensures r == s[..|s| - TrailingSpaceRun(s)]
    ensures r == [] || !IsSpace(r[|r| - 1])
  {
    s[..|s| - TrailingSpaceRun(s)]
  }

  /** `str.strip()` */
  function Strip(s: string): (r: string)
    ensures r == [] || (!IsSpace(r[0]) && !IsSpace(r[|r| - 1]))
  {
    var t := LStrip(s);
    var r := RStrip(t);
    assert r == [] || r[0] == t[0];
    r
  }

  /** `str.rstrip(c)` for a single character c. */
  function RStripChar(s: string, c: char): (r: string)
    ensures StartsWith(s, r)
    ensures r == [] || r[|r| - 1] != c
  {
    if s != [] && s[|s| - 1] == c then RStripChar(s[..|s| - 1], c) else s
  }

  /** Stripping leaves a string unchanged exactly when it has no whitespace at either end. */
  lemma StripUnchanged(s: string)
    requires s == [] || (!IsSpace(s[0]) && !IsSpace(s[|s| - 1]))
    ensures Strip(s) == s
  {
    assert SpaceRun(s) == 0;
    assert LStrip(s) == s;
    assert TrailingSpaceRun(s) == 0;
  }

  /** Stripping removes exactly the whitespace padding around a string with non-space ends. */
  lemma StripAround(a: string, s: string, b: string)
    requires forall i :: 0 <= i < |a| ==> IsSpace(a[i])
    requires forall i :: 0 <= i < |b| ==> IsSpace(b[i])
    requires s != [] && !IsSpace(s[0]) && !IsSpace(s[|s| - 1])
    ensures Strip(a + s + b) == s
  {
    var t := a + s + b;
    var n := SpaceRun(t);
    assert t[|a|] == s[0];
    assert n == |a|;
    assert LStrip(t) == s + b;
    var u := s + b;
    var m := TrailingSpaceRun(u);
    assert u[|s| - 1] == s[|s| - 1];
    assert m == |b|;
    assert RStrip(u) == s;
  }

  /** `str.split()` with no separator: the maximal whitespace-free runs, in order. */
  function SplitWs(s: string): (r: seq<string>)
    ensures forall i :: 0 <= i < |r| ==> r[i] != [] && NoSpace(r[i])
    decreases |s|
  {
    var t := LStrip(s);
    if t == [] then []
    else
      var n := NonSpaceRun(t);
      [t[..n]] + SplitWs(t[n..])
  }

  /** `str.splitlines()`: no trailing empty piece, "\r\n" is one boundary. */
  function SplitLines(s: string): (r: seq<string>)
    ensures forall i :: 0 <= i < |r| ==> NoLineBreak(r[i])
    decreases |s|
  {
    if s == [] then []
    else
      var n := LineLen(s);
      if n == |s| then [s]
      else
        var k := if s[n] == '\r' && n + 1 < |s| && s[n + 1] == '\n' then n + 2 else n + 1;
        [s[..n]] + SplitLines(s[k..])
  }

  /** `sep.join(xs)` */
  function Join(xs: seq<string>, sep: string): string
  {
    if xs == [] then ""
    else if |xs| == 1 then xs[0]
    else xs[0] + sep + Join(xs[1..], sep)
  }

  /** `" " * n`, which is empty for n <= 0. */
  function Spaces(n: int): (r: string)
    ensures |r| == if n <= 0 then 0 else n
    ensures forall i :: 0 <= i < |r| ==> r[i] == ' '
  {
    seq(if n <= 0 then 0 else n, _ => ' ')
  }

  /** `s.ljust(w)`: pad with spaces on the right up to width w. */
  function LJust(s: string, w: int): (r: string)
    ensures |r| == if |s| >= w then |s| else w
    ensures StartsWith(r, s)
    ensures forall i :: |s| <= i < |r| ==> r[i] == ' '
  {
    if |s| >= w then s else s + Spaces(w - |s|)
  }

  // ---------------------------------------------------------------------
  // Python's ordering of str (by code point, a proper prefix first)
  // ---------------------------------------------------------------------

  /** `a <= b` on Python str. */
  predicate StrLe(a: string, b: string)
    decreases |a|
  {
    a == [] || (b != [] && (a[0] < b[0] || (a[0] == b[0] && StrLe(a[1..], b[1..]))))
  }

  /** `a < b` on Python str. */
  predicate StrLt(a: string, b: string)
  {
    StrLe(a, b) && a != b
  }

  lemma {:induction false} StrLeTotal(a: string, b: string)
    ensures StrLe(a, b) || StrLe(b, a)
    decreases |a|
  {
    if a != [] && b != [] && a[0] == b[0] {
      StrLeTotal(a[1..], b[1..]);
    }
  }

  lemma {:induction false} StrLeTrans(a: string, b: string, c: string)
    requires StrLe(a, b) && StrLe(b, c)
    ensures StrLe(a, c)
    decreases |a|
  {
    if a != [] && b != [] && c != [] && a[0] == b[0] && b[0] == c[0] {
      StrLeTrans(a[1..], b[1..], c[1..]);
    }
  }

  lemma {:induction false} StrLeAntisym(a: string, b: string)
    requires StrLe(a, b) && StrLe(b, a)
    ensures a == b
    decreases |a|
  {
    if a != [] {
      StrLeAntisym(a[1..], b[1..]);
      assert a == [a[0]] + a[1..] && b == [b[0]] + b[1..];
    }
  }

  /** The facts a sort by Python's str order relies on, for every pair and triple. */
  lemma StrOrder()
    ensures forall a, b :: StrLe(a, b) || StrLe(b, a)
    ensures forall a, b, c :: StrLe(a, b) && StrLe(b, c) ==> StrLe(a, c)
    ensures forall a, b :: StrLe(a, b) && StrLe(b, a) ==> a == b
  {
    forall a, b ensures StrLe(a, b) || StrLe(b, a) { StrLeTotal(a, b); }
    forall a, b, c | StrLe(a, b) && StrLe(b, c) ensures StrLe(a, c) { StrLeTrans(a, b, c); }
    forall a, b | StrLe(a, b) && StrLe(b, a) ensures a == b { StrLeAntisym(a, b); }
  }

  // ---------------------------------------------------------------------
  // Decimal tokens `[-+]?\d+(?:\.\d+)?` and their value as `float(tok)`
  // ---------------------------------------------------------------------

  /** A token of the shape `[-+]?\d+(\.\d+)?` can start at the front of s. */
  predicate TokenStart(s: string)
  {
    (|s| >= 1 && IsDigit(s[0]))
    || (|s| >= 2 && (s[0] == '-' || s[0] == '+') && IsDigit(s[1]))
  }

  /** Length of the sign part of a token at the front of s. */
  function SignLen(s: string): nat
  {
    if s != [] && (s[0] == '-' || s[0] == '+') then 1 else 0
  }

  /** Length of the greedy token at the front of s. */
  function TokenLen(s: string): (n: nat)
    requires TokenStart(s)
    ensures SignLen(s) < n <= |s|
  {
    var a := SignLen(s) + DigitRun(s[SignLen(s)..]);
    if a + 1 < |s| && s[a] == '.' && IsDigit(s[a + 1]) then a + 1 + DigitRun(s[a + 1..]) else a
  }

  /** s is exactly one token. */
  predicate IsDecimalToken(s: string)
  {
    TokenStart(s) && TokenLen(s) == |s|
  }

  function Pow10(n: nat): (r: nat)
    ensures r >= 1
  {
    if n == 0 then 1 else 10 * Pow10(n - 1)
  }

  /** Value of a run of ASCII digits. */
  function DigitsValue(ds: string): nat
    requires AllDigits(ds)
  {
    if ds == [] then 0 else DigitsValue(ds[..|ds| - 1]) * 10 + (ds[|ds| - 1] as int - '0' as int)
  }

  /** The magnitude of a token: integer part plus fraction. */
  function TokenMagnitude(tok: string): (m: real)
    requires IsDecimalToken(tok)
    ensures m >= 0.0
  {
    var sg := SignLen(tok);
    var d := DigitRun(tok[sg..]);
    var ip := tok[sg..sg + d];
    var frac := if sg + d < |tok| then tok[sg + d + 1..] else "";
    assert AllDigits(ip);
    assert AllDigits(frac) by {
      if sg + d < |tok| {
        assert tok[sg + d] == '.';
        assert forall i :: 0 <= i < |frac| ==> frac[i] == tok[sg + d + 1..][i];
      }
    }
    DigitsValue(ip) as real + DigitsValue(frac) as real / Pow10(|frac|) as real
  }

  /** `float(tok)`, computed exactly. */
  function TokenValue(tok: string): (v: real)
    requires IsDecimalToken(tok)
    ensures tok[0] == '-' ==> v <= 0.0
    ensures tok[0] != '-' ==> v >= 0.0
  {
    if tok[0] == '-' then -TokenMagnitude(tok) else TokenMagnitude(tok)
  }

  // ---------------------------------------------------------------------
  // Integer formatting
  // ---------------------------------------------------------------------

  function DigitChar(d: nat): (c: char)
    requires d < 10
    ensures IsDigit(c) && c as int - '0' as int == d
  {
    (d + '0' as int) as char
  }

  /** `str(n)` for a non-negative int. */
  function NatStr(n: nat): string
  {
    if n < 10 then [DigitChar(n)] else NatStr(n / 10) + [DigitChar(n % 10)]
  }

  /** `str(n)` is a run of digits, and reading it back gives n. */
  lemma {:induction false} NatStrDigits(n: nat)
    ensures NatStr(n) != [] && AllDigits(NatStr(n)) && DigitsValue(NatStr(n)) == n
  {
    if n >= 10 {
      NatStrDigits(n / 10);
      var s := NatStr(n);
      assert s[..|s| - 1] == NatStr(n / 10);
    }
  }

  /** `s.rjust(w)`, the `{:>w}` format: pad with spaces on the left up to width w. */
  function RJust(s: string, w: int): (r: string)
    ensures |r| == if |s| >= w then |s| else w
    ensures EndsWith(r, s)
    ensures forall i :: 0 <= i < |r| - |s| ==> r[i] == ' '
  {
    if |s| >= w then s else Spaces(w - |s|) + s
  }

  // ---------------------------------------------------------------------
  // Where runs and searches stop on strings of a known shape
  // ---------------------------------------------------------------------

  /** A whitespace run ends where the whitespace ends. */
  lemma {:induction false} SpaceRunStops(a: string, t: string)
    requires forall i :: 0 <= i < |a| ==> IsSpace(a[i])
    requires t == [] || !IsSpace(t[0])
    ensures SpaceRun(a + t) == |a|
    decreases |a|
  {
    if a != [] {
      assert (a + t)[1..] == a[1..] + t;
      SpaceRunStops(a[1..], t);
    } else {
      assert a + t == t;
    }
  }

  /** A `\w` run ends where the word characters end. */
  lemma {:induction false} WordRunStops(a: string, t: string)
    requires forall i :: 0 <= i < |a| ==> IsWordChar(a[i])
    requires t == [] || !IsWordChar(t[0])
    ensures WordRun(a + t) == |a|
    decreases |a|
  {
    if a != [] {
      assert (a + t)[1..] == a[1..] + t;
      WordRunStops(a[1..], t);
    } else {
      assert a + t == t;
    }
  }

  /** The first c in a + [c] + t is the one after a, when a has none. */
  lemma {:induction false} IndexOfStops(a: string, c: char, t: string)
    requires c !in a
    ensures IndexOf(a + [c] + t, c) == Some(|a|)
    decreases |a|
  {
    if a != [] {
      assert (a + [c] + t)[0] == a[0];
      assert (a + [c] + t)[1..] == a[1..] + [c] + t;
      IndexOfStops(a[1..], c, t);
    } else {
      assert (a + [c] + t)[0] == c;
    }
  }

  /** Every line boundary is whitespace, so a whitespace-free string is a single line. */
  lemma NoSpaceNoLineBreak(s: string)
    requires NoSpace(s)
    ensures NoLineBreak(s)
  {
  }

  /** `split()` of a single whitespace-free word is that word. */
  lemma SplitWsWord(w: string)
    requires w != [] && NoSpace(w)
    ensures SplitWs(w) == [w]
  {
    assert SpaceRun(w) == 0;
    assert LStrip(w) == w;
    assert NonSpaceRun(w) == |w|;
    assert w[..|w|] == w && w[|w|..] == [];
    assert SplitWs([]) == [];
  }

  /** Lines each followed by "\n", the way a text file holds them. */
  function Unlines(ls: seq<string>): (r: string)
  {
    if ls == [] then "" else ls[0] + "\n" + Unlines(ls[1..])
  }

  /** `splitlines()` gives back the lines a file was written from. */
  lemma {:induction false} SplitLinesUnlines(ls: seq<string>)
    requires forall i :: 0 <= i < |ls| ==> NoLineBreak(ls[i])
    ensures SplitLines(Unlines(ls)) == ls
  {
    if ls != [] {
      SplitLinesCons(ls[0], Unlines(ls[1..]));
      SplitLinesUnlines(ls[1..]);
    }
  }

  /** `splitlines()` of one line, a "\n" and the rest. */
  lemma SplitLinesCons(l: string, rest: string)
    requires NoLineBreak(l)
    ensures SplitLines(l + "\n" + rest) == [l] + SplitLines(rest)
  {
    var s := l + "\n" + rest;
    assert s == l + ("\n" + rest);
    LineLenStops(l, "\n" + rest);
    assert s[|l|] == '\n';
    assert s[..|l|] == l;
    assert s[|l| + 1..] == rest;
  }

  /** A line ends at its first line boundary. */
  lemma {:induction false} LineLenStops(a: string, t: string)
    requires NoLineBreak(a)
    requires t != [] && IsLineBreak(t[0])
    ensures LineLen(a + t) == |a|
    decreases |a|
  {
    if a != [] {
      assert (a + t)[0] == a[0] && !IsLineBreak(a[0]);
      assert (a + t)[1..] == a[1..] + t;
      assert NoLineBreak(a[1..]) by {
        assert forall i :: 0 <= i < |a[1..]| ==> a[1..][i] == a[i + 1];
      }
      LineLenStops(a[1..], t);
    } else {
      assert a + t == t;
    }
  }

  /** `"\n".join(xs) + "\n"` writes each line followed by a newline. */
  lemma {:induction false} JoinUnlines(xs: seq<string>)
    requires |xs| > 0
    ensures Join(xs, "\n") + "\n" == Unlines(xs)
  {
    if |xs| == 1 {
      assert Unlines(xs[1..]) == "";
    } else {
      JoinUnlines(xs[1..]);
      assert Join(xs, "\n") + "\n" == xs[0] + "\n" + (Join(xs[1..], "\n") + "\n");
    }
  }

  lemma {:induction false} UnlinesAppend(a: seq<string>, b: seq<string>)
    ensures Unlines(a + b) == Unlines(a) + Unlines(b)
  {
    if a == [] {
      assert a + b == b;
    } else {
      assert (a + b)[0] == a[0] && (a + b)[1..] == a[1..] + b;
      UnlinesAppend(a[1..], b);
      assert Unlines(a + b) == a[0] + "\n" + (Unlines(a[1..]) + Unlines(b));
    }
  }

  /** A run of whitespace in front does not change `split()`. */
  lemma SplitWsLead(sp: string, rest: string)
    requires forall i :: 0 <= i < |sp| ==> IsSpace(sp[i])
    ensures SplitWs(sp + rest) == SplitWs(rest)
  {
    SpaceRunAppend(sp, rest);
    var s := sp + rest;
    assert s[|sp|..] == rest;
    assert LStrip(s) == LStrip(rest) by {
      assert s[|sp| + SpaceRun(rest)..] == rest[SpaceRun(rest)..];
    }
  }

  lemma {:induction false} SpaceRunAppend(sp: string, rest: string)
    requires forall i :: 0 <= i < |sp| ==> IsSpace(sp[i])
    ensures SpaceRun(sp + rest) == |sp| + SpaceRun(rest)
    decreases |sp|
  {
    if sp == [] {
      assert sp + rest == rest;
    } else {
      assert (sp + rest)[1..] == sp[1..] + rest;
      SpaceRunAppend(sp[1..], rest);
    }
  }

  /** A word, whitespace and the rest: `split()` gives the word, then the rest's words. */
  lemma SplitWsCons(w: string, sp: string, rest: string)
    requires w != [] && NoSpace(w)
    requires sp != [] && forall i :: 0 <= i < |sp| ==> IsSpace(sp[i])
    ensures SplitWs(w + sp + rest) == [w] + SplitWs(rest)
  {
    var s := w + sp + rest;
    assert s[0] == w[0];
    assert LStrip(s) == s by {
      assert SpaceRun(s) == 0;
    }
    assert NonSpaceRun(s) == |w| by {
      assert s == w + (sp + rest);
      NonSpaceRunStops(w, sp + rest);
    }
    assert s[..|w|] == w && s[|w|..] == sp + rest;
    SplitWsLead(sp, rest);
  }

  lemma {:induction false} NonSpaceRunStops(a: string, t: string)
    requires NoSpace(a)
    requires t != [] && IsSpace(t[0])
    ensures NonSpaceRun(a + t) == |a|
    decreases |a|
  {
    if a != [] {
      assert (a + t)[1..] == a[1..] + t;
      NonSpaceRunStops(a[1..], t);
    } else {
      assert a + t == t;
    }
  }

  lemma UnlinesThree(a: string, b: string, c: string)
    ensures Unlines([a, b, c]) == a + "\n" + b + "\n" + c + "\n"
  {
    assert [a, b, c][1..] == [b, c] && [b, c][1..] == [c] && [c][1..] == [];
    assert Unlines([c]) == c + "\n";
    assert Unlines([b, c]) == b + "\n" + (c + "\n");
    assert Unlines([a, b, c]) == a + "\n" + (b + "\n" + (c + "\n"));
  }

  lemma StartsWithAppend(a: string, b: string)
    ensures StartsWith(a + b, a)
  {
    assert (a + b)[..|a|] == a;
  }
}
