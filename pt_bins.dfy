/**
 * The two histograms of the violation summary: slack bins, searched as
 * (upper, lower] ranges by `bin_value_desc`, and skew bins, searched as
 * [lo, hi) ranges by `bin_value_linear`. A bin is stored as the source
 * stores it (two optional edges and a printed label); the search decides
 * which edge is which.
 */
module PtBins {
  import opened Text

  datatype Bin = Bin(first: Option<real>, second: Option<real>, name: string)

  const Unbinned: string := "(unbinned)"

  // ---------------------------------------------------------------------
  // The two searches
  // ---------------------------------------------------------------------

  /** `bin_value_desc`'s test of one bin, read as (upper, lower, label). */
  predicate DescHit(v: real, b: Bin)
  {
    match (b.first, b.second)
    case (None, Some(lower)) => v <= lower
    case (Some(upper), None) => v > upper
    case (Some(upper), Some(lower)) => lower < v <= upper
    case (None, None) => false
  }

  /** `bin_value_linear`'s test of one bin, read as (lo, hi, label). */
  predicate LinearHit(v: real, b: Bin)
  {
    match (b.first, b.second)
    case (None, Some(hi)) => v < hi
    case (Some(lo), None) => v >= lo
    case (Some(lo), Some(hi)) => lo <= v < hi
    case (None, None) => false
  }

  /** The loop `for ... in bins: if <hit>: return label`: the first bin that v hits. */
  function FirstHit(v: real, bins: seq<Bin>, hit: (real, Bin) -> bool): (r: Option<nat>)
    ensures r.Some? ==> r.value < |bins| && hit(v, bins[r.value])
    ensures r.Some? ==> forall j :: 0 <= j < r.value ==> !hit(v, bins[j])
    ensures r.None? ==> forall j :: 0 <= j < |bins| ==> !hit(v, bins[j])
  {
    if bins == [] then None
    else if hit(v, bins[0]) then Some(0)
    else match FirstHit(v, bins[1..], hit)
      case None => None
      case Some(i) => Some(i + 1)
  }

  function LabelOf(v: real, bins: seq<Bin>, hit: (real, Bin) -> bool): string
  {
    match FirstHit(v, bins, hit)
    case Some(i) => bins[i].name
    case None => Unbinned
  }

  function BinValueDesc(v: real, bins: seq<Bin>): string
  {
    LabelOf(v, bins, DescHit)
  }

  function BinValueLinear(v: real, bins: seq<Bin>): string
  {
    LabelOf(v, bins, LinearHit)
  }

  // ---------------------------------------------------------------------
  // Bin layouts and the partitions they make
  // ---------------------------------------------------------------------

  predicate StrictlyDecreasing(d: seq<real>)
  {
    forall i :: 0 <= i < |d| - 1 ==> d[i + 1] < d[i]
  }

  predicate StrictlyIncreasing(a: seq<real>)
  {
    forall i :: 0 <= i < |a| - 1 ==> a[i] < a[i + 1]
  }

  /**
   * Descending slack bins over the edges d[0] > d[1] > ...: bin i is
   * (d[i], d[i+1]] for i < |d| - 1, and the last bin is "at most the last edge".
   */
  predicate DescendingBins(bins: seq<Bin>, d: seq<real>)
  {
    |d| >= 1 && |bins| == |d| && StrictlyDecreasing(d)
    && (forall i :: 0 <= i < |d| - 1 ==> bins[i].first == Some(d[i]) && bins[i].second == Some(d[i + 1]))
    && bins[|d| - 1].first == None && bins[|d| - 1].second == Some(d[|d| - 1])
  }

  /**
   * Ascending skew bins over the edges a[0] < a[1] < ...: "below a[0]",
   * then [a[i-1], a[i]), then "at least the last edge".
   */
  predicate AscendingBins(bins: seq<Bin>, a: seq<real>)
  {
    |a| >= 1 && |bins| == |a| + 1 && StrictlyIncreasing(a)
    && bins[0].first == None && bins[0].second == Some(a[0])
    && (forall i :: 1 <= i < |a| ==> bins[i].first == Some(a[i - 1]) && bins[i].second == Some(a[i]))
    && bins[|a|].first == Some(a[|a| - 1]) && bins[|a|].second == None
  }

  lemma {:induction false} DecreasingPairs(d: seq<real>, i: nat, j: nat)
    requires StrictlyDecreasing(d) && i <= j < |d|
    ensures d[j] <= d[i]
    decreases j - i
  {
    if i < j {
      DecreasingPairs(d, i + 1, j);
    }
  }

  lemma {:induction false} IncreasingPairs(a: seq<real>, i: nat, j: nat)
    requires StrictlyIncreasing(a) && i <= j < |a|
    ensures a[i] <= a[j]
    decreases j - i
  {
    if i < j {
      IncreasingPairs(a, i + 1, j);
    }
  }

  /** What hitting bin i of descending bins means, in terms of the edges. */
  lemma DescendingHit(v: real, bins: seq<Bin>, d: seq<real>, i: nat)
    requires DescendingBins(bins, d) && i < |bins|
    ensures DescHit(v, bins[i]) <==> if i < |d| - 1 then d[i + 1] < v <= d[i] else v <= d[i]
  {
    if i < |d| - 1 {
      assert bins[i].first == Some(d[i]) && bins[i].second == Some(d[i + 1]);
    }
  }

  lemma {:induction false} DescendingHitFrom(v: real, bins: seq<Bin>, d: seq<real>, j: nat)
    requires DescendingBins(bins, d) && j < |d| && v <= d[j]
    ensures exists k :: j <= k < |bins| && DescHit(v, bins[k])
    decreases |d| - j
  {
    DescendingHit(v, bins, d, j);
    if j < |d| - 1 && v <= d[j + 1] {
      DescendingHitFrom(v, bins, d, j + 1);
    }
  }

  /**
   * Descending bins cover exactly the values at most the top edge, and
   * such a value hits one bin only, so the search returns that bin.
   */
  lemma DescendingPartition(v: real, bins: seq<Bin>, d: seq<real>)
    requires DescendingBins(bins, d)
    ensures FirstHit(v, bins, DescHit).Some? <==> v <= d[0]
    ensures forall i :: 0 <= i < |bins| && DescHit(v, bins[i]) ==> FirstHit(v, bins, DescHit) == Some(i)
  {
    var r := FirstHit(v, bins, DescHit);
    forall i | 0 <= i < |bins| && DescHit(v, bins[i])
      ensures r == Some(i)
    {
      var k := r.value;
      if k < i {
        DescendingHit(v, bins, d, k);
        DescendingHit(v, bins, d, i);
        DecreasingPairs(d, k + 1, i);
        assert false;
      }
    }
    if v <= d[0] {
      DescendingHitFrom(v, bins, d, 0);
    } else if r.Some? {
      DescendingHit(v, bins, d, r.value);
      DecreasingPairs(d, 0, r.value);
    }
  }

  lemma {:induction false} AscendingHitFrom(v: real, bins: seq<Bin>, a: seq<real>, j: nat)
    requires AscendingBins(bins, a) && j <= |a| && (j == 0 || a[j - 1] <= v)
    ensures exists k :: j <= k < |bins| && LinearHit(v, bins[k])
    decreases |a| - j
  {
    if j == |a| {
      assert LinearHit(v, bins[j]);
    } else if v < a[j] {
      assert LinearHit(v, bins[j]);
    } else {
      AscendingHitFrom(v, bins, a, j + 1);
    }
  }

  /** Ascending bins cover every real, each value exactly once. */
  lemma AscendingPartition(v: real, bins: seq<Bin>, a: seq<real>)
    requires AscendingBins(bins, a)
    ensures FirstHit(v, bins, LinearHit).Some?
    ensures forall i :: 0 <= i < |bins| && LinearHit(v, bins[i]) ==> FirstHit(v, bins, LinearHit) == Some(i)
  {
    AscendingHitFrom(v, bins, a, 0);
    var r := FirstHit(v, bins, LinearHit);
    forall i | 0 <= i < |bins| && LinearHit(v, bins[i])
      ensures r == Some(i)
    {
      var k := r.value;
      if k < i {
        IncreasingPairs(a, k, i - 1);
        assert false;
      }
    }
  }

  // ---------------------------------------------------------------------
  // Labels: `f" {a:+.3f}ns < {b:+.3f}ns".replace("+", "")`
  // ---------------------------------------------------------------------

  /** The three digits after the point, for r thousandths. */
  function Frac3(r: nat): string
    requires r < 1000
  {
    [DigitChar(r / 100), DigitChar(r % 100 / 10), DigitChar(r % 10)]
  }

  /** `f"{x:.3f}"` of x = m / 1000, for a whole number m of thousandths. */
  function Fixed3(m: nat): string
  {
    NatStr(m / 1000) + "." + Frac3(m % 1000)
  }

  predicate NoChar(s: string, c: char)
  {
    forall i :: 0 <= i < |s| ==> s[i] != c
  }

  lemma Frac3Injective(r: nat, r2: nat)
    requires r < 1000 && r2 < 1000 && Frac3(r) == Frac3(r2)
    ensures r == r2
  {
    assert r / 100 == r2 / 100 by {
      assert Frac3(r)[0] == Frac3(r2)[0];
    }
    assert r % 100 / 10 == r2 % 100 / 10 by {
      assert Frac3(r)[1] == Frac3(r2)[1];
    }
    assert r % 10 == r2 % 10 by {
      assert Frac3(r)[2] == Frac3(r2)[2];
    }
    assert r % 100 == 10 * (r % 100 / 10) + r % 10;
    assert r2 % 100 == 10 * (r2 % 100 / 10) + r2 % 10;
  }

  /** Splitting at a separator followed by equally long tails. */
  lemma SplitBeforeTail(x: string, f: string, y: string, g: string, c: char)
    requires x + [c] + f == y + [c] + g && |f| == |g|
    ensures x == y && f == g
  {
    var s := x + [c] + f;
    assert |x| == |y|;
    assert x == s[..|x|] && f == s[|x| + 1..];
    assert y == s[..|y|] && g == s[|y| + 1..];
  }

  /** Distinct thousandths print differently. */
  lemma Fixed3Injective(a: nat, b: nat)
    requires Fixed3(a) == Fixed3(b)
    ensures a == b
  {
    NatStrDigits(a / 1000);
    NatStrDigits(b / 1000);
    SplitBeforeTail(NatStr(a / 1000), Frac3(a % 1000), NatStr(b / 1000), Frac3(b % 1000), '.');
    Frac3Injective(a % 1000, b % 1000);
  }

  lemma Fixed3NoLetter(m: nat)
    ensures NoChar(Fixed3(m), 'n')
  {
    var x, f := NatStr(m / 1000), Frac3(m % 1000);
    NatStrDigits(m / 1000);
    var s := Fixed3(m);
    forall i | 0 <= i < |s| ensures s[i] != 'n' {
      if i < |x| {
        assert s[i] == x[i];
      } else if i > |x| {
        assert s[i] == f[i - |x| - 1];
      }
    }
  }

  /** After a common prefix, two strings agree up to the first occurrence of a separator. */
  lemma SameBeforeSeparator(p: string, x: string, q: string, x2: string, q2: string, c: char)
    requires NoChar(x, c) && NoChar(x2, c) && q != [] && q[0] == c && q2 != [] && q2[0] == c
    requires p + x + q == p + x2 + q2
    ensures x == x2
  {
    var s, s2 := p + x + q, p + x2 + q2;
    assert s[|p| + |x|] == c && s2[|p| + |x2|] == c;
    assert |x| == |x2|;
    assert x == s[|p|..|p| + |x|];
    assert x2 == s2[|p|..|p| + |x2|];
  }

  /** The label of the slack bin from -a/1000 down to -b/1000. */
  function RangeLabel(a: nat, b: nat): string
  {
    " -" + Fixed3(a) + ("ns < -" + Fixed3(b) + "ns")
  }

  lemma RangeLabelInjective(a: nat, b: nat, a2: nat, b2: nat)
    requires RangeLabel(a, b) == RangeLabel(a2, b2)
    ensures a == a2
  {
    Fixed3NoLetter(a);
    Fixed3NoLetter(a2);
    SameBeforeSeparator(" -", Fixed3(a), "ns < -" + Fixed3(b) + "ns", Fixed3(a2), "ns < -" + Fixed3(b2) + "ns", 'n');
    Fixed3Injective(a, a2);
  }

  predicate DistinctLabels(bins: seq<Bin>)
  {
    forall i, j :: 0 <= i < j < |bins| ==> bins[i].name != bins[j].name
  }

  // ---------------------------------------------------------------------
  // make_slack_bins
  // ---------------------------------------------------------------------

  /** The slack edges, in thousandths of a nanosecond below zero. */
  const SlackEdgeMillis: seq<nat> := [0, 2, 4, 6, 8, 10, 15, 20, 30, 40, 50, 60, 70, 80, 90, 100, 110, 120,
                                       130, 140, 150, 160, 170, 180, 190, 200, 300, 400, 500, 1000, 2000, 5000]

  predicate IncreasingMillis(e: seq<nat>)
  {
    forall i :: 0 <= i < |e| - 1 ==> e[i] < e[i + 1]
  }

  /** The edge m thousandths below zero. */
  function Edge(m: nat): real
  {
    -(m as real) / 1000.0
  }

  function EdgeValues(e: seq<nat>): (d: seq<real>)
    ensures |d| == |e| && forall i :: 0 <= i < |d| ==> d[i] == Edge(e[i])
  {
    seq(|e|, i requires 0 <= i < |e| => Edge(e[i]))
  }

  function RangeBin(a: nat, b: nat): Bin
  {
    Bin(Some(Edge(a)), Some(Edge(b)), RangeLabel(a, b))
  }

  /** One bin per pair of consecutive edges: `zip(edges[:-1], edges[1:])`. */
  function RangeBins(e: seq<nat>): (bins: seq<Bin>)
    ensures |bins| == if |e| < 2 then 0 else |e| - 1
    ensures forall i :: 0 <= i < |bins| ==> bins[i] == RangeBin(e[i], e[i + 1])
  {
    if |e| < 2 then [] else [RangeBin(e[0], e[1])] + RangeBins(e[1..])
  }

  /** The bins over edges e followed by an open-ended last bin. */
  function DescBins(e: seq<nat>, last: Bin): seq<Bin>
  {
    RangeBins(e) + [last]
  }

  /** The open-ended last bin as the source builds it: -5.0 lands in the upper-edge slot. */
  const LastSlackBinAsWritten: Bin := Bin(Some(-5.0), None, " -5.000ns <")

  /** The open-ended last bin as the search needs it: "at most -5.0". */
  const LastSlackBin: Bin := Bin(None, Some(-5.0), " -5.000ns <")

  function SlackBinsAsWritten(): seq<Bin>
  {
    DescBins(SlackEdgeMillis, LastSlackBinAsWritten)
  }

  function SlackBins(): seq<Bin>
  {
    DescBins(SlackEdgeMillis, LastSlackBin)
  }

  /** The loop over `zip(edges[:-1], edges[1:])` that builds the range bins. */
  method MakeRangeBins(e: seq<nat>) returns (bins: seq<Bin>)
    ensures bins == RangeBins(e)
  {
    bins := [];
    var i := 0;
    while i + 1 < |e|
      invariant 0 <= i <= if |e| < 2 then 0 else |e| - 1
      invariant bins == RangeBins(e)[..i]
    {
      bins := bins + [RangeBin(e[i], e[i + 1])];
      i := i + 1;
    }
  }

  /** `make_slack_bins` as the source builds it: the range bins, then the open-ended bin with -5.0 as its upper edge. */
  method MakeSlackBins() returns (bins: seq<Bin>)
    ensures bins == SlackBinsAsWritten()
  {
    bins := MakeRangeBins(SlackEdgeMillis);
    bins := bins + [LastSlackBinAsWritten];
  }

  lemma {:induction false} IncreasingMillisPairs(e: seq<nat>, i: nat, j: nat)
    requires IncreasingMillis(e) && i < j < |e|
    ensures e[i] < e[j]
    decreases j - i
  {
    if i + 1 < j {
      IncreasingMillisPairs(e, i + 1, j);
    }
  }

  /** Increasing thousandths give descending bins, closed by "at most the last edge". */
  lemma RangeBinsDescending(e: seq<nat>, name: string)
    requires |e| >= 1 && IncreasingMillis(e)
    ensures DescendingBins(DescBins(e, Bin(None, Some(Edge(e[|e| - 1])), name)), EdgeValues(e))
  {
    var bins, d := DescBins(e, Bin(None, Some(Edge(e[|e| - 1])), name)), EdgeValues(e);
    assert |bins| == |d|;
    forall i | 0 <= i < |d| - 1
      ensures d[i + 1] < d[i]
      ensures bins[i].first == Some(d[i]) && bins[i].second == Some(d[i + 1])
    {
      assert bins[i] == RangeBins(e)[i];
    }
  }

  lemma RangeLabelShape(a: nat, b: nat)
    ensures |RangeLabel(a, b)| >= 20 && RangeLabel(a, b)[0] == ' '
  {
    NatStrDigits(a / 1000);
    NatStrDigits(b / 1000);
  }

  lemma RangeLabelsDiffer(e: seq<nat>, i: nat, j: nat)
    requires IncreasingMillis(e) && i < j && j + 1 < |e|
    ensures RangeLabel(e[i], e[i + 1]) != RangeLabel(e[j], e[j + 1])
  {
    if RangeLabel(e[i], e[i + 1]) == RangeLabel(e[j], e[j + 1]) {
      RangeLabelInjective(e[i], e[i + 1], e[j], e[j + 1]);
      IncreasingMillisPairs(e, i, j);
    }
  }

  /** Distinct edges give distinct labels, none of them "(unbinned)". */
  lemma RangeLabelsDistinct(e: seq<nat>, last: Bin)
    requires IncreasingMillis(e) && |last.name| < 20 && last.name != Unbinned
    ensures DistinctLabels(DescBins(e, last))
    ensures forall i :: 0 <= i < |DescBins(e, last)| ==> DescBins(e, last)[i].name != Unbinned
  {
    var bins := DescBins(e, last);
    var n := |bins| - 1;
    forall i, j | 0 <= i < j < |bins| ensures bins[i].name != bins[j].name {
      assert bins[i].name == RangeLabel(e[i], e[i + 1]);
      if j < n {
        RangeLabelsDiffer(e, i, j);
      } else {
        RangeLabelShape(e[i], e[i + 1]);
      }
    }
    forall i | 0 <= i < n ensures bins[i].name != Unbinned {
      RangeLabelShape(e[i], e[i + 1]);
      assert bins[i].name == RangeLabel(e[i], e[i + 1]);
    }
  }

  /** Bins over increasing thousandths partition the values at most the top edge. */
  lemma RangeBinsPartition(v: real, e: seq<nat>, name: string)
    requires |e| >= 1 && IncreasingMillis(e)
    ensures var bins := DescBins(e, Bin(None, Some(Edge(e[|e| - 1])), name));
      && (FirstHit(v, bins, DescHit).Some? <==> v <= Edge(e[0]))
      && (forall i :: 0 <= i < |bins| && DescHit(v, bins[i]) ==> FirstHit(v, bins, DescHit) == Some(i))
      && (v <= Edge(e[|e| - 1]) ==> LabelOf(v, bins, DescHit) == name)
  {
    var bins := DescBins(e, Bin(None, Some(Edge(e[|e| - 1])), name));
    RangeBinsDescending(e, name);
    DescendingPartition(v, bins, EdgeValues(e));
    if v <= Edge(e[|e| - 1]) {
      assert DescHit(v, bins[|bins| - 1]);
    }
  }

  /**
   * Swapping the last bin's edge into the upper slot: above the last edge
   * the label is unchanged, at or below it nothing is hit.
   */
  lemma LastBinSwapped(v: real, e: seq<nat>, name: string)
    requires |e| >= 1 && IncreasingMillis(e) && v <= Edge(e[0])
    ensures var edge := Edge(e[|e| - 1]);
      var fixed, aw := DescBins(e, Bin(None, Some(edge), name)), DescBins(e, Bin(Some(edge), None, name));
      (v > edge ==> FirstHit(v, aw, DescHit) == FirstHit(v, fixed, DescHit))
      && (v > edge ==> LabelOf(v, aw, DescHit) == LabelOf(v, fixed, DescHit))
      && (v <= edge ==> FirstHit(v, aw, DescHit) == None)
  {
    var edge := Edge(e[|e| - 1]);
    var fixed, aw := DescBins(e, Bin(None, Some(edge), name)), DescBins(e, Bin(Some(edge), None, name));
    var d := EdgeValues(e);
    var n := |fixed| - 1;
    assert forall i :: 0 <= i < n ==> aw[i] == fixed[i];
    RangeBinsDescending(e, name);
    DescendingPartition(v, fixed, d);
    var k := FirstHit(v, fixed, DescHit).value;
    if v > edge {
      assert k < n;
      assert DescHit(v, aw[k]);
      assert FirstHit(v, aw, DescHit) == Some(k);
    } else {
      forall i | 0 <= i < n ensures !DescHit(v, aw[i]) {
        DescendingHit(v, fixed, d, i);
        DecreasingPairs(d, i + 1, n);
      }
      assert !DescHit(v, aw[n]);
    }
  }

  /** The facts about the concrete slack edges the lemmas below use. */
  lemma SlackEdgeFacts()
    ensures |SlackEdgeMillis| == 32 && IncreasingMillis(SlackEdgeMillis)
    ensures Edge(SlackEdgeMillis[0]) == 0.0 && Edge(SlackEdgeMillis[31]) == -5.0
  {
  }

  /**
   * Every slack at most 0 falls into exactly one slack bin, and a positive
   * slack into none; deep violations land in the last bin.
   */
  lemma SlackBinsPartition(v: real)
    ensures FirstHit(v, SlackBins(), DescHit).Some? <==> v <= 0.0
    ensures forall i :: 0 <= i < |SlackBins()| && DescHit(v, SlackBins()[i]) ==> FirstHit(v, SlackBins(), DescHit) == Some(i)
    ensures v <= -5.0 ==> BinValueDesc(v, SlackBins()) == " -5.000ns <"
  {
    SlackEdgeFacts();
    RangeBinsPartition(v, SlackEdgeMillis, " -5.000ns <");
  }

  lemma SlackLabelsDistinct()
    ensures DistinctLabels(SlackBins())
    ensures forall i :: 0 <= i < |SlackBins()| ==> SlackBins()[i].name != Unbinned
  {
    SlackEdgeFacts();
    RangeLabelsDistinct(SlackEdgeMillis, LastSlackBin);
  }

  /**
   * The source's bins: a slack above -5.0 gets the same label as with the
   * corrected bins, but a slack at or below -5.0 is "(unbinned)".
   */
  lemma AsWrittenLosesDeepSlack(v: real)
    requires v <= 0.0
    ensures FirstHit(v, SlackBinsAsWritten(), DescHit).Some? <==> v > -5.0
    ensures v > -5.0 ==> BinValueDesc(v, SlackBinsAsWritten()) == BinValueDesc(v, SlackBins())
    ensures v <= -5.0 ==> BinValueDesc(v, SlackBinsAsWritten()) == Unbinned
  {
    SlackEdgeFacts();
    LastBinSwapped(v, SlackEdgeMillis, " -5.000ns <");
    RangeBinsPartition(v, SlackEdgeMillis, " -5.000ns <");
  }

  /** The concrete input: a slack of exactly -5.0 is printed in no bin by the source. */
  lemma DeepSlackUnbinned()
    ensures BinValueDesc(-5.0, SlackBinsAsWritten()) == Unbinned
    ensures BinValueDesc(-5.0, SlackBins()) == " -5.000ns <"
  {
    AsWrittenLosesDeepSlack(-5.0);
    SlackBinsPartition(-5.0);
  }

  // ---------------------------------------------------------------------
  // make_skew_bins
  // ---------------------------------------------------------------------

  const SkewEdges: seq<real> := [-5.0, -2.0, -1.0, -0.5, -0.2, -0.1, 0.0, 0.1, 0.2, 0.5, 1.0, 2.0, 5.0]

  function SkewBins(): seq<Bin>
  {
    [
      Bin(None, Some(-5.0), "        < -5.0ns"),
      Bin(Some(-5.0), Some(-2.0), " -5.0ns < -2.0ns"),
      Bin(Some(-2.0), Some(-1.0), " -2.0ns < -1.0ns"),
      Bin(Some(-1.0), Some(-0.5), " -1.0ns < -0.5ns"),
      Bin(Some(-0.5), Some(-0.2), " -0.5ns < -0.2ns"),
      Bin(Some(-0.2), Some(-0.1), " -0.2ns < -0.1ns"),
      Bin(Some(-0.1), Some(0.0), " -0.1ns <  0.0ns"),
      Bin(Some(0.0), Some(0.1), "  0.0ns < +0.1ns"),
      Bin(Some(0.1), Some(0.2), " +0.1ns < +0.2ns"),
      Bin(Some(0.2), Some(0.5), " +0.2ns < +0.5ns"),
      Bin(Some(0.5), Some(1.0), " +0.5ns < +1.0ns"),
      Bin(Some(1.0), Some(2.0), " +1.0ns < +2.0ns"),
      Bin(Some(2.0), Some(5.0), " +2.0ns < +5.0ns"),
      Bin(Some(5.0), None, " +5.0ns <")
    ]
  }

  lemma SkewEdgesIncrease()
    ensures StrictlyIncreasing(SkewEdges)
  {
  }

  lemma SkewBinsAscending()
    ensures AscendingBins(SkewBins(), SkewEdges)
  {
    SkewEdgesIncrease();
    SkewBinsLower();
    SkewBinsUpper();
  }

  lemma SkewBinsLower()
    ensures forall i :: 1 <= i < |SkewEdges| ==> SkewBins()[i].first == Some(SkewEdges[i - 1])
  {
  }

  lemma SkewBinsUpper()
    ensures forall i :: 1 <= i < |SkewEdges| ==> SkewBins()[i].second == Some(SkewEdges[i])
  {
  }

  /** Every skew lands in exactly one skew bin; none is "(unbinned)". */
  lemma SkewBinsPartition(v: real)
    ensures FirstHit(v, SkewBins(), LinearHit).Some?
    ensures forall i :: 0 <= i < |SkewBins()| && LinearHit(v, SkewBins()[i]) ==> FirstHit(v, SkewBins(), LinearHit) == Some(i)
    ensures BinValueLinear(v, SkewBins()) != Unbinned
  {
    SkewBinsAscending();
    AscendingPartition(v, SkewBins(), SkewEdges);
    SkewLabelsDistinct();
  }

  lemma SkewLabelsDistinct()
    ensures DistinctLabels(SkewBins())
    ensures forall i :: 0 <= i < |SkewBins()| ==> SkewBins()[i].name != Unbinned
  {
  }

  // ---------------------------------------------------------------------
  // Histograms: `Counter(labels)` printed bin by bin with `.get(label, 0)`
  // ---------------------------------------------------------------------

  /** The label of each value, in order. */
  function Labels(vs: seq<real>, bins: seq<Bin>, hit: (real, Bin) -> bool): (ls: seq<string>)
    ensures |ls| == |vs| && forall i :: 0 <= i < |vs| ==> ls[i] == LabelOf(vs[i], bins, hit)
  {
    if vs == [] then [] else [LabelOf(vs[0], bins, hit)] + Labels(vs[1..], bins, hit)
  }

  /** `Counter(xs).get(x, 0)` */
  function Occurrences(xs: seq<string>, x: string): nat
  {
    if xs == [] then 0 else (if xs[0] == x then 1 else 0) + Occurrences(xs[1..], x)
  }

  /** The sum of the counts printed in the histogram's rows, one row per bin. */
  function Printed(xs: seq<string>, bins: seq<Bin>): nat
  {
    if bins == [] then 0 else Occurrences(xs, bins[0].name) + Printed(xs, bins[1..])
  }

  /** How many bins carry the label x. */
  function NameHits(bins: seq<Bin>, x: string): nat
  {
    if bins == [] then 0 else (if bins[0].name == x then 1 else 0) + NameHits(bins[1..], x)
  }

  /** How many values hit some bin. */
  function HitCount(vs: seq<real>, bins: seq<Bin>, hit: (real, Bin) -> bool): (n: nat)
    ensures n <= |vs|
  {
    if vs == [] then 0 else (if FirstHit(vs[0], bins, hit).Some? then 1 else 0) + HitCount(vs[1..], bins, hit)
  }

  lemma {:induction false} PrintedNothing(bins: seq<Bin>)
    ensures Printed([], bins) == 0
  {
    if bins != [] {
      PrintedNothing(bins[1..]);
    }
  }

  lemma {:induction false} PrintedStep(x: string, xs: seq<string>, bins: seq<Bin>)
    ensures Printed([x] + xs, bins) == NameHits(bins, x) + Printed(xs, bins)
  {
    if bins != [] {
      PrintedStep(x, xs, bins[1..]);
      assert ([x] + xs)[1..] == xs;
    }
  }

  lemma {:induction false} NameHitsDistinct(bins: seq<Bin>, x: string)
    requires DistinctLabels(bins)
    ensures NameHits(bins, x) == if exists i :: 0 <= i < |bins| && bins[i].name == x then 1 else 0
  {
    if bins != [] {
      NameHitsDistinct(bins[1..], x);
      if bins[0].name == x {
        assert forall i :: 1 <= i < |bins| ==> bins[i].name != x;
      } else if exists i :: 0 <= i < |bins| && bins[i].name == x {
        var i :| 0 <= i < |bins| && bins[i].name == x;
        assert bins[1..][i - 1].name == x;
      }
    }
  }

  /**
   * With distinct labels, none of them "(unbinned)", the printed counts add
   * up to the number of values that hit a bin.
   */
  lemma {:induction false} PrintedCountsHits(vs: seq<real>, bins: seq<Bin>, hit: (real, Bin) -> bool)
    requires DistinctLabels(bins) && forall i :: 0 <= i < |bins| ==> bins[i].name != Unbinned
    ensures Printed(Labels(vs, bins, hit), bins) == HitCount(vs, bins, hit)
  {
    if vs != [] {
      var x := LabelOf(vs[0], bins, hit);
      PrintedCountsHits(vs[1..], bins, hit);
      assert Labels(vs, bins, hit) == [x] + Labels(vs[1..], bins, hit);
      PrintedStep(x, Labels(vs[1..], bins, hit), bins);
      NameHitsDistinct(bins, x);
      match FirstHit(vs[0], bins, hit)
      case Some(k) =>
        assert bins[k].name == x;
      case None =>
        assert x == Unbinned;
    } else {
      PrintedNothing(bins);
    }
  }

  /** How many values are at or below the edge. */
  function CountAtMost(vs: seq<real>, edge: real): (n: nat)
    ensures n <= |vs|
  {
    if vs == [] then 0 else (if vs[0] <= edge then 1 else 0) + CountAtMost(vs[1..], edge)
  }

  /** A value at or below the edge is counted. */
  lemma {:induction false} CountAtMostPositive(vs: seq<real>, edge: real, i: nat)
    requires i < |vs| && vs[i] <= edge
    ensures CountAtMost(vs, edge) > 0
  {
    if i > 0 {
      CountAtMostPositive(vs[1..], edge, i - 1);
    }
  }

  lemma {:induction false} AllHit(vs: seq<real>, bins: seq<Bin>, hit: (real, Bin) -> bool)
    requires forall i :: 0 <= i < |vs| ==> FirstHit(vs[i], bins, hit).Some?
    ensures HitCount(vs, bins, hit) == |vs|
  {
    if vs != [] {
      AllHit(vs[1..], bins, hit);
    }
  }

  lemma {:induction false} HitAboveEdge(vs: seq<real>, bins: seq<Bin>, hit: (real, Bin) -> bool, edge: real)
    requires forall i :: 0 <= i < |vs| ==> (FirstHit(vs[i], bins, hit).Some? <==> vs[i] > edge)
    ensures HitCount(vs, bins, hit) == |vs| - CountAtMost(vs, edge)
  {
    if vs != [] {
      HitAboveEdge(vs[1..], bins, hit, edge);
    }
  }

  /** Over bins from increasing thousandths, every value at most the top edge is printed once. */
  lemma RangeHistogramTotal(vs: seq<real>, e: seq<nat>, name: string)
    requires |e| >= 1 && IncreasingMillis(e) && |name| < 20 && name != Unbinned
    requires forall i :: 0 <= i < |vs| ==> vs[i] <= Edge(e[0])
    ensures var bins := DescBins(e, Bin(None, Some(Edge(e[|e| - 1])), name));
      Printed(Labels(vs, bins, DescHit), bins) == |vs|
  {
    var bins := DescBins(e, Bin(None, Some(Edge(e[|e| - 1])), name));
    forall i | 0 <= i < |vs| ensures FirstHit(vs[i], bins, DescHit).Some? {
      RangeBinsPartition(vs[i], e, name);
    }
    AllHit(vs, bins, DescHit);
    RangeLabelsDistinct(e, Bin(None, Some(Edge(e[|e| - 1])), name));
    PrintedCountsHits(vs, bins, DescHit);
  }

  /** With the last edge in the upper slot, the values at or below it are printed nowhere. */
  lemma SwappedHistogramTotal(vs: seq<real>, e: seq<nat>, name: string)
    requires |e| >= 1 && IncreasingMillis(e) && |name| < 20 && name != Unbinned
    requires forall i :: 0 <= i < |vs| ==> vs[i] <= Edge(e[0])
    ensures var edge := Edge(e[|e| - 1]);
      var bins := DescBins(e, Bin(Some(edge), None, name));
      Printed(Labels(vs, bins, DescHit), bins) == |vs| - CountAtMost(vs, edge)
  {
    var edge := Edge(e[|e| - 1]);
    var bins := DescBins(e, Bin(Some(edge), None, name));
    forall i | 0 <= i < |vs| ensures FirstHit(vs[i], bins, DescHit).Some? <==> vs[i] > edge {
      LastBinSwapped(vs[i], e, name);
      RangeBinsPartition(vs[i], e, name);
    }
    HitAboveEdge(vs, bins, DescHit, edge);
    RangeLabelsDistinct(e, Bin(Some(edge), None, name));
    PrintedCountsHits(vs, bins, DescHit);
  }

  /** The printed slack histogram of the violations: its rows add up to the number of violations. */
  lemma SlackHistogramTotal(vs: seq<real>)
    requires forall i :: 0 <= i < |vs| ==> vs[i] < 0.0
    ensures Printed(Labels(vs, SlackBins(), DescHit), SlackBins()) == |vs|
  {
    SlackEdgeFacts();
    RangeHistogramTotal(vs, SlackEdgeMillis, " -5.000ns <");
  }

  /**
   * As the source builds the slack bins, the printed rows add up to the
   * number of violations less those at or below -5.0.
   */
  lemma AsWrittenHistogramTotal(vs: seq<real>)
    requires forall i :: 0 <= i < |vs| ==> vs[i] < 0.0
    ensures Printed(Labels(vs, SlackBinsAsWritten(), DescHit), SlackBinsAsWritten()) == |vs| - CountAtMost(vs, -5.0)
  {
    SlackEdgeFacts();
    SwappedHistogramTotal(vs, SlackEdgeMillis, " -5.000ns <");
  }

  /** The printed skew histogram's rows add up to the number of skews binned. */
  lemma SkewHistogramTotal(vs: seq<real>)
    ensures Printed(Labels(vs, SkewBins(), LinearHit), SkewBins()) == |vs|
  {
    forall i | 0 <= i < |vs| ensures FirstHit(vs[i], SkewBins(), LinearHit).Some? {
      SkewBinsPartition(vs[i]);
    }
    AllHit(vs, SkewBins(), LinearHit);
    SkewLabelsDistinct();
    PrintedCountsHits(vs, SkewBins(), LinearHit);
  }
}
