/**
 * Python's stable `sorted`/`list.sort` and its insertion-ordered `dict`,
 * as used by the summary tools: a sort is an insertion sort that keeps
 * equal elements in their original order, and a dict is an association
 * list with distinct keys in first-insertion order.
 */
module Collections {
  import opened Text

  // ---------------------------------------------------------------------
  // Stable sort
  // ---------------------------------------------------------------------

  ghost predicate TotalPreorder<T(!new)>(le: (T, T) -> bool)
  {
    (forall a, b :: le(a, b) || le(b, a))
    && (forall a, b, c :: le(a, b) && le(b, c) ==> le(a, c))
  }

  predicate SortedBy<T>(s: seq<T>, le: (T, T) -> bool)
  {
    forall i, j :: 0 <= i < j < |s| ==> le(s[i], s[j])
  }

  /** Place x before the first element it sorts before or ties with. */
  function Insert<T>(x: T, s: seq<T>, le: (T, T) -> bool): (r: seq<T>)
    ensures |r| == |s| + 1
    ensures multiset(r) == multiset(s) + multiset{x}
  {
    if s == [] then [x]
    else if le(x, s[0]) then [x] + s
    else
      assert s == [s[0]] + s[1..];
      [s[0]] + Insert(x, s[1..], le)
  }

  /** `sorted(xs, key=...)`: a stable sort by `le`. */
  function SortBy<T>(xs: seq<T>, le: (T, T) -> bool): (r: seq<T>)
    ensures |r| == |xs|
    ensures multiset(r) == multiset(xs)
  {
    if xs == [] then []
    else
      assert xs == [xs[0]] + xs[1..];
      Insert(xs[0], SortBy(xs[1..], le), le)
  }

  lemma {:induction false} InsertSorted<T(!new)>(x: T, s: seq<T>, le: (T, T) -> bool)
    requires TotalPreorder(le) && SortedBy(s, le)
    ensures SortedBy(Insert(x, s, le), le)
  {
    if s != [] && !le(x, s[0]) {
      InsertSorted(x, s[1..], le);
      var r := Insert(x, s[1..], le);
      assert le(s[0], x);
      forall j | 0 <= j < |r| ensures le(s[0], r[j]) {
        assert r[j] in multiset(r);
        assert r[j] == x || r[j] in multiset(s[1..]);
        if r[j] != x {
          var k :| 0 <= k < |s[1..]| && s[1..][k] == r[j];
          assert s[k + 1] == r[j];
        }
      }
    }
  }

  /** The result of a sort is ordered (with the multiset ensures: a sorted permutation). */
  lemma {:induction false} SortBySorted<T(!new)>(xs: seq<T>, le: (T, T) -> bool)
    requires TotalPreorder(le)
    ensures SortedBy(SortBy(xs, le), le)
  {
    if xs != [] {
      SortBySorted(xs[1..], le);
      InsertSorted(xs[0], SortBy(xs[1..], le), le);
    }
  }

  // ---------------------------------------------------------------------
  // Sums and minima over a sequence, unchanged by sorting
  // ---------------------------------------------------------------------

  function SumReal<T>(s: seq<T>, f: T -> real): real
  {
    if s == [] then 0.0 else f(s[0]) + SumReal(s[1..], f)
  }

  function SumNat<T>(s: seq<T>, f: T -> nat): nat
  {
    if s == [] then 0 else f(s[0]) + SumNat(s[1..], f)
  }

  /** `min(f(x) for x in s)` of a non-empty s. */
  function MinReal<T>(s: seq<T>, f: T -> real): (m: real)
    requires s != []
    ensures forall i :: 0 <= i < |s| ==> m <= f(s[i])
    ensures exists i :: 0 <= i < |s| && m == f(s[i])
  {
    if |s| == 1 then f(s[0])
    else
      var m := MinReal(s[1..], f);
      assert forall i :: 1 <= i < |s| ==> s[i] == s[1..][i - 1];
      if f(s[0]) <= m then f(s[0]) else m
  }

  lemma {:induction false} SumRealAppend<T>(a: seq<T>, b: seq<T>, f: T -> real)
    ensures SumReal(a + b, f) == SumReal(a, f) + SumReal(b, f)
  {
    if a != [] {
      assert (a + b)[0] == a[0] && (a + b)[1..] == a[1..] + b;
      SumRealAppend(a[1..], b, f);
    } else {
      assert a + b == b;
    }
  }

  lemma SumNatSnoc<T>(s: seq<T>, f: T -> nat)
    requires |s| > 0
    ensures SumNat(s, f) == SumNat(s[..|s| - 1], f) + f(s[|s| - 1])
  {
    var x := s[|s| - 1];
    assert s == s[..|s| - 1] + [x];
    SumNatAppend(s[..|s| - 1], [x], f);
    assert [x][1..] == [];
  }

  lemma {:induction false} SumNatAppend<T>(a: seq<T>, b: seq<T>, f: T -> nat)
    ensures SumNat(a + b, f) == SumNat(a, f) + SumNat(b, f)
  {
    if a != [] {
      assert (a + b)[0] == a[0] && (a + b)[1..] == a[1..] + b;
      SumNatAppend(a[1..], b, f);
    } else {
      assert a + b == b;
    }
  }

  lemma {:induction false} InsertSums<T>(x: T, s: seq<T>, le: (T, T) -> bool, f: T -> real, g: T -> nat)
    ensures SumReal(Insert(x, s, le), f) == f(x) + SumReal(s, f)
    ensures SumNat(Insert(x, s, le), g) == g(x) + SumNat(s, g)
  {
    if s != [] && !le(x, s[0]) {
      InsertSums(x, s[1..], le, f, g);
    }
  }

  /** Sorting does not change a sum. */
  lemma {:induction false} SortBySums<T>(xs: seq<T>, le: (T, T) -> bool, f: T -> real, g: T -> nat)
    ensures SumReal(SortBy(xs, le), f) == SumReal(xs, f)
    ensures SumNat(SortBy(xs, le), g) == SumNat(xs, g)
  {
    if xs != [] {
      SortBySums(xs[1..], le, f, g);
      InsertSums(xs[0], SortBy(xs[1..], le), le, f, g);
    }
  }

  /** Sorting does not change a minimum. */
  lemma SortByMin<T>(xs: seq<T>, le: (T, T) -> bool, f: T -> real)
    requires xs != []
    ensures MinReal(SortBy(xs, le), f) == MinReal(xs, f)
  {
    var r := SortBy(xs, le);
    var m := MinReal(xs, f);
    var k :| 0 <= k < |r| && MinReal(r, f) == f(r[k]);
    assert r[k] in multiset(xs);
    var i :| 0 <= i < |xs| && m == f(xs[i]);
    assert xs[i] in multiset(r);
  }

  // ---------------------------------------------------------------------
  // dict as an association list
  // ---------------------------------------------------------------------

  predicate DistinctKeys<K(==), V>(d: seq<(K, V)>)
  {
    forall i, j :: 0 <= i < j < |d| ==> d[i].0 != d[j].0
  }

  /** Position of key k, if present. */
  function KeyIndex<K(==), V>(d: seq<(K, V)>, k: K): (r: Option<nat>)
    ensures r.Some? ==> r.value < |d| && d[r.value].0 == k
    ensures r.None? ==> forall i :: 0 <= i < |d| ==> d[i].0 != k
  {
    if d == [] then None
    else if d[|d| - 1].0 == k then Some(|d| - 1)
    else KeyIndex(d[..|d| - 1], k)
  }

  /** Appending another key does not move a key. */
  lemma KeyIndexSnoc<K, V>(d: seq<(K, V)>, e: (K, V), k: K)
    requires e.0 != k
    ensures KeyIndex(d + [e], k) == KeyIndex(d, k)
  {
    assert (d + [e])[..|d|] == d;
  }

  /** Changing a value never changes whether a key is present. */
  lemma {:induction false} KeyIndexUpdate<K, V>(d: seq<(K, V)>, i: nat, v: V, k: K)
    requires i < |d|
    ensures KeyIndex(d[i := (d[i].0, v)], k).None? <==> KeyIndex(d, k).None?
  {
    if KeyIndex(d, k).Some? {
      var j := KeyIndex(d, k).value;
      assert d[i := (d[i].0, v)][j].0 == k;
    } else {
      var e := d[i := (d[i].0, v)];
      assert forall j :: 0 <= j < |e| ==> e[j].0 == d[j].0;
    }
  }

  /** Lookup depends on the keys only. */
  lemma KeyIndexSameKeys<K, V, W>(d: seq<(K, V)>, e: seq<(K, W)>, k: K)
    requires |d| == |e| && forall j :: 0 <= j < |d| ==> d[j].0 == e[j].0
    ensures KeyIndex(d, k) == KeyIndex(e, k)
  {
    if d != [] {
      KeyIndexSameKeys(d[..|d| - 1], e[..|e| - 1], k);
    }
  }

  function Keys<K, V>(d: seq<(K, V)>): (ks: seq<K>)
    ensures |ks| == |d| && forall i :: 0 <= i < |d| ==> ks[i] == d[i].0
  {
    if d == [] then [] else Keys(d[..|d| - 1]) + [d[|d| - 1].0]
  }

  // ---------------------------------------------------------------------
  // Filters, maxima, and sums and minima after an update
  // ---------------------------------------------------------------------

  /** `[x for x in xs if keep(x)]` */
  function Filter<T>(xs: seq<T>, keep: T -> bool): (r: seq<T>)
    ensures |r| <= |xs|
    ensures forall i :: 0 <= i < |r| ==> keep(r[i])
  {
    if xs == [] then []
    else Filter(xs[..|xs| - 1], keep) + (if keep(xs[|xs| - 1]) then [xs[|xs| - 1]] else [])
  }

  /** A filter keeps every occurrence of a kept element and nothing else. */
  lemma {:induction false} FilterCount<T>(xs: seq<T>, keep: T -> bool, x: T)
    ensures multiset(Filter(xs, keep))[x] == if keep(x) then multiset(xs)[x] else 0
  {
    if xs != [] {
      var init := xs[..|xs| - 1];
      FilterCount(init, keep, x);
      assert xs == init + [xs[|xs| - 1]];
    }
  }

  /** A filter of a sorted list is sorted. */
  lemma {:induction false} FilterSorted<T>(xs: seq<T>, keep: T -> bool, le: (T, T) -> bool)
    requires SortedBy(xs, le)
    ensures SortedBy(Filter(xs, keep), le)
    ensures forall i :: 0 <= i < |Filter(xs, keep)| ==> Filter(xs, keep)[i] in xs
  {
    if xs != [] {
      var init := xs[..|xs| - 1];
      assert SortedBy(init, le);
      FilterSorted(init, keep, le);
      assert forall i :: 0 <= i < |init| ==> init[i] == xs[i];
    }
  }

  /** `max(f(x) for x in s)` of a non-empty s. */
  function MaxNat<T>(s: seq<T>, f: T -> nat): (m: nat)
    requires s != []
    ensures forall i :: 0 <= i < |s| ==> f(s[i]) <= m
    ensures exists i :: 0 <= i < |s| && m == f(s[i])
  {
    if |s| == 1 then f(s[0])
    else
      var m := MaxNat(s[1..], f);
      assert forall i :: 1 <= i < |s| ==> s[i] == s[1..][i - 1];
      if f(s[0]) >= m then f(s[0]) else m
  }

  /** A lower bound that is attained is the minimum. */
  lemma MinRealIs<T>(s: seq<T>, f: T -> real, m: real)
    requires s != []
    requires forall i :: 0 <= i < |s| ==> m <= f(s[i])
    requires exists i :: 0 <= i < |s| && m == f(s[i])
    ensures MinReal(s, f) == m
  {
    var i :| 0 <= i < |s| && m == f(s[i]);
    var j :| 0 <= j < |s| && MinReal(s, f) == f(s[j]);
    assert MinReal(s, f) <= f(s[i]) && m <= f(s[j]);
  }

  /** Appending one element lowers the minimum to that element's value at most. */
  lemma MinRealSnoc<T>(s: seq<T>, x: T, f: T -> real)
    requires s != []
    ensures MinReal(s + [x], f) == if f(x) < MinReal(s, f) then f(x) else MinReal(s, f)
  {
    var m := if f(x) < MinReal(s, f) then f(x) else MinReal(s, f);
    var t := s + [x];
    forall i | 0 <= i < |t| ensures m <= f(t[i]) {
      if i < |s| {
        assert t[i] == s[i];
      }
    }
    if f(x) < MinReal(s, f) {
      assert t[|s|] == x;
    } else {
      var i :| 0 <= i < |s| && MinReal(s, f) == f(s[i]);
      assert t[i] == s[i];
    }
    MinRealIs(t, f, m);
  }

  lemma {:induction false} SumRealUpdate<T>(s: seq<T>, i: nat, x: T, f: T -> real)
    requires i < |s|
    ensures SumReal(s[i := x], f) == SumReal(s, f) - f(s[i]) + f(x)
  {
    if i > 0 {
      assert s[i := x][1..] == s[1..][i - 1 := x];
      SumRealUpdate(s[1..], i - 1, x, f);
    }
  }

  lemma {:induction false} SumNatUpdate<T>(s: seq<T>, i: nat, x: T, f: T -> nat)
    requires i < |s|
    ensures SumNat(s[i := x], f) == SumNat(s, f) - f(s[i]) + f(x)
  {
    if i > 0 {
      assert s[i := x][1..] == s[1..][i - 1 := x];
      SumNatUpdate(s[1..], i - 1, x, f);
    }
  }

  /** A non-empty sequence is its front followed by its last element. */
  lemma FrontLast<T>(s: seq<T>)
    requires |s| > 0
    ensures s == s[..|s| - 1] + [s[|s| - 1]]
  {
  }

  lemma ConcatAssoc<T>(a: seq<T>, b: seq<T>, c: seq<T>)
    ensures (a + b) + c == a + (b + c)
  {
  }
}
