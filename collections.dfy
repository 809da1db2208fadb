/**
 * Sequence operations the source gets from pandas and from Python dicts:
 * `unique()` and dict-key order (first appearance), `value_counts()` followed by
 * `head(n)`, and the labels of a DBSCAN run in ascending order.
 */
module Collections {
  import opened Wrappers

  /**
   * The values of a column without its nulls (`dropna()`). NonNullCounts states
   * that each value is kept as often as it occurs, NonNullAppend that the order is kept.
   */
  function NonNull<T>(xs: seq<Option<T>>): (r: seq<T>)
    ensures |r| <= |xs|
    ensures forall i :: 0 <= i < |xs| && xs[i].Some? ==> xs[i].value in r
    ensures forall i :: 0 <= i < |r| ==> Some(r[i]) in xs
    ensures r == [] <==> forall i :: 0 <= i < |xs| ==> xs[i].None?
  {
    if xs == [] then []
    else
      var rest := NonNull(xs[1..]);
      assert forall i :: 1 <= i < |xs| ==> xs[i] == xs[1..][i - 1];
      if xs[0].Some? then [xs[0].value] + rest else rest
  }

  /** dropna() keeps every value as many times as the column holds it. */
  lemma {:induction false} NonNullCounts<T>(xs: seq<Option<T>>, v: T)
    ensures Count(NonNull(xs), v) == Count(xs, Some(v))
  {
    if xs != [] {
      var rest := NonNull(xs[1..]);
      NonNullCounts(xs[1..], v);
      assert xs == [xs[0]] + xs[1..];
      assert Count(xs, Some(v)) == (if xs[0] == Some(v) then 1 else 0) + Count(xs[1..], Some(v));
      if xs[0].Some? {
        assert NonNull(xs) == [xs[0].value] + rest;
        assert Count(NonNull(xs), v) == (if xs[0].value == v then 1 else 0) + Count(rest, v);
      } else {
        assert NonNull(xs) == rest;
      }
    }
  }

  /**
   * dropna() of two column pieces put together is the two results put together,
   * and of one cell it is that cell's value or nothing: the values keep their order.
   */
  lemma {:induction false} NonNullAppend<T>(a: seq<Option<T>>, b: seq<Option<T>>)
    ensures NonNull(a + b) == NonNull(a) + NonNull(b)
    ensures NonNull<T>([None]) == [] && forall v: T :: NonNull([Some(v)]) == [v]
  {
    if a != [] {
      var head: seq<T> := if a[0].Some? then [a[0].value] else [];
      assert (a + b)[0] == a[0] && (a + b)[1..] == a[1..] + b;
      assert NonNull(a + b) == head + NonNull(a[1..] + b);
      assert NonNull(a) == head + NonNull(a[1..]);
      NonNullAppend(a[1..], b);
    } else {
      assert a + b == b;
    }
    assert NonNull<T>([None]) == [] by {
      var one: seq<Option<T>> := [None];
      assert one[1..] == [];
    }
    forall v: T ensures NonNull([Some(v)]) == [v] {
      assert [Some(v)][1..] == [];
    }
  }

  /** Nothing is dropped exactly when no value is null. */
  lemma {:induction false} NonNullKeepsAll<T>(xs: seq<Option<T>>)
    ensures |NonNull(xs)| == |xs| <==> forall i :: 0 <= i < |xs| ==> xs[i].Some?
  {
    if xs != [] {
      NonNullKeepsAll(xs[1..]);
      assert forall i :: 1 <= i < |xs| ==> xs[i] == xs[1..][i - 1];
    }
  }

  function Sum(xs: seq<int>): int {
    if xs == [] then 0 else xs[0] + Sum(xs[1..])
  }

  /** `sum()` of a column: pandas skips the nulls. */
  function SumNonNull(xs: seq<Option<int>>): int {
    Sum(NonNull(xs))
  }

  /** Skipping a null adds the same as counting it as 0. */
  lemma {:induction false} NullsCountAsZero(xs: seq<Option<int>>)
    ensures SumNonNull(xs) == Sum(seq(|xs|, i requires 0 <= i < |xs| => xs[i].GetOr(0)))
  {
    var zs := seq(|xs|, i requires 0 <= i < |xs| => xs[i].GetOr(0));
    if xs != [] {
      NullsCountAsZero(xs[1..]);
      assert zs[1..] == seq(|xs[1..]|, i requires 0 <= i < |xs[1..]| => xs[1..][i].GetOr(0));
    }
  }

  /** The elements of `xs` in order of first appearance, each once. */
  function Distinct<T(==)>(xs: seq<T>): (r: seq<T>)
    ensures forall i :: 0 <= i < |r| ==> r[i] in xs
    ensures forall i :: 0 <= i < |xs| ==> xs[i] in r
    ensures forall i, j :: 0 <= i < j < |r| ==> r[i] != r[j]
  {
    if |xs| == 0 then []
    else
      var init := xs[..|xs| - 1];
      var last := xs[|xs| - 1];
      var d := Distinct(init);
      assert forall i :: 0 <= i < |xs| - 1 ==> xs[i] == init[i];
      if last in init then d else d + [last]
  }

  /** Appending a value to the sequence appends it to Distinct when it is new. */
  lemma DistinctSnoc<T>(xs: seq<T>, x: T)
    ensures Distinct(xs + [x]) == if x in xs then Distinct(xs) else Distinct(xs) + [x]
  {
    assert (xs + [x])[..|xs|] == xs;
  }

  /** Distinct keeps the values in the order in which they first appear. */
  lemma {:induction false} DistinctOrder<T>(xs: seq<T>)
    ensures FirstAppearanceOrder(xs, Distinct(xs))
  {
    if |xs| > 0 {
      var init := xs[..|xs| - 1];
      DistinctOrder(init);
      FirstIndexOfPrefix(xs, init);
      var d := Distinct(init);
      var r := Distinct(xs);
      forall i, j | 0 <= i < j < |r| ensures FirstIndex(xs, r[i]) < FirstIndex(xs, r[j]) {
        assert r[i] == d[i] && r[i] in init;
        if j < |d| {
          assert r[j] == d[j] && r[j] in init;
        } else {
          assert r == d + [xs[|xs| - 1]] && r[j] == xs[|xs| - 1];
        }
      }
    }
  }

  /** Every element of `r` occurs in `xs`, and `r` lists them by their first offsets in `xs`. */
  predicate FirstAppearanceOrder<T(==)>(xs: seq<T>, r: seq<T>) {
    (forall i :: 0 <= i < |r| ==> r[i] in xs)
    && forall i, j :: 0 <= i < j < |r| ==> FirstIndex(xs, r[i]) < FirstIndex(xs, r[j])
  }

  /** The offset of the first occurrence of `x` in `xs`. */
  function FirstIndex<T(==)>(xs: seq<T>, x: T): (i: nat)
    requires x in xs
    ensures i < |xs| && xs[i] == x && forall j :: 0 <= j < i ==> xs[j] != x
  {
    if xs[0] == x then 0 else 1 + FirstIndex(xs[1..], x)
  }

  lemma FirstIndexOfPrefix<T>(xs: seq<T>, init: seq<T>)
    requires |xs| > 0 && init == xs[..|xs| - 1]
    ensures forall x :: x in init ==> FirstIndex(xs, x) == FirstIndex(init, x)
    ensures xs[|xs| - 1] !in init ==> FirstIndex(xs, xs[|xs| - 1]) == |xs| - 1
  {
    forall x | x in init ensures FirstIndex(xs, x) == FirstIndex(init, x) {
      var i := FirstIndex(init, x);
      assert xs[i] == x;
    }
  }

  /** The number of times `x` occurs in `xs`. */
  function Count<T(==)>(xs: seq<T>, x: T): nat {
    multiset(xs)[x]
  }

  /** Each distinct value with its number of occurrences, in first-appearance order. */
  function Tally<T(==)>(xs: seq<T>): (r: seq<(T, nat)>)
    ensures |r| == |Distinct(xs)|
    ensures forall i :: 0 <= i < |r| ==> r[i] == (Distinct(xs)[i], Count(xs, Distinct(xs)[i]))
  {
    var d := Distinct(xs);
    seq(|d|, i requires 0 <= i < |d| => (d[i], Count(xs, d[i])))
  }

  /** Counts never increase along `s`. */
  predicate CountsDescending<T>(s: seq<(T, nat)>) {
    forall i, j :: 0 <= i < j < |s| ==> s[i].1 >= s[j].1
  }

  /** The number of leading entries of `s` whose count is at least `c`. */
  function InsertPoint<T>(s: seq<(T, nat)>, c: nat): (k: nat)
    ensures k <= |s|
    ensures forall i :: 0 <= i < k ==> s[i].1 >= c
    ensures k < |s| ==> s[k].1 < c
  {
    if s == [] || s[0].1 < c then 0 else 1 + InsertPoint(s[1..], c)
  }

  /** Put `p` after every entry whose count is at least p's. */
  function InsertByCount<T>(s: seq<(T, nat)>, p: (T, nat)): (r: seq<(T, nat)>)
    requires CountsDescending(s)
    ensures CountsDescending(r)
    ensures multiset(r) == multiset(s) + multiset{p}
  {
    var k := InsertPoint(s, p.1);
    InsertAt(s, k, p);
    s[..k] + [p] + s[k..]
  }

  /** Where each element of `s` lands when `p` is inserted at `k`. */
  lemma InsertAt<T>(s: seq<T>, k: nat, p: T)
    requires k <= |s|
    ensures var r := s[..k] + [p] + s[k..];
      |r| == |s| + 1 && r[k] == p
      && (forall i :: 0 <= i < k ==> r[i] == s[i])
      && (forall i :: k < i < |r| ==> r[i] == s[i - 1])
      && multiset(r) == multiset(s) + multiset{p}
  {
    assert s == s[..k] + s[k..];
  }

  /** A stable sort by descending count, as `value_counts()` orders its result. */
  function SortByCount<T>(s: seq<(T, nat)>): (r: seq<(T, nat)>)
    ensures CountsDescending(r)
    ensures multiset(r) == multiset(s)
  {
    if s == [] then []
    else
      var init := s[..|s| - 1];
      assert s == init + [s[|s| - 1]];
      InsertByCount(SortByCount(init), s[|s| - 1])
  }

  /** `value_counts()`: the distinct values with their counts, most frequent first. */
  function ValueCounts<T(==)>(xs: seq<T>): (r: seq<(T, nat)>)
    ensures |r| == |Distinct(xs)|
    ensures CountsDescending(r)
    ensures forall i :: 0 <= i < |r| ==> r[i].0 in xs && r[i].1 == Count(xs, r[i].0) && r[i].1 >= 1
    ensures forall i :: 0 <= i < |xs| ==> (xs[i], Count(xs, xs[i])) in r
    ensures forall i, j :: 0 <= i < j < |r| ==> r[i].0 != r[j].0
  {
    var t := Tally(xs);
    var r := SortByCount(t);
    TallyEntries(xs);
    SortedEntries(t, r);
    TallyComplete(xs);
    DistinctKeys(t, r);
    r
  }

  lemma TallyEntries<T>(xs: seq<T>)
    ensures var t := Tally(xs);
      forall i :: 0 <= i < |t| ==> t[i].0 in xs && t[i].1 == Count(xs, t[i].0) && t[i].1 >= 1
  {
    var t := Tally(xs);
    forall i | 0 <= i < |t| ensures t[i].0 in xs && t[i].1 == Count(xs, t[i].0) && t[i].1 >= 1 {
      assert t[i].0 == Distinct(xs)[i];
    }
  }

  lemma TallyComplete<T>(xs: seq<T>)
    ensures forall i :: 0 <= i < |xs| ==> (xs[i], Count(xs, xs[i])) in multiset(Tally(xs))
  {
    var t := Tally(xs);
    var d := Distinct(xs);
    forall k | 0 <= k < |xs| ensures (xs[k], Count(xs, xs[k])) in multiset(t) {
      var i :| 0 <= i < |d| && d[i] == xs[k];
      assert t[i] == (xs[k], Count(xs, xs[k]));
    }
  }

  lemma SortedEntries<T>(t: seq<(T, nat)>, r: seq<(T, nat)>)
    requires multiset(r) == multiset(t)
    ensures forall i :: 0 <= i < |r| ==> r[i] in t
  {
    forall i | 0 <= i < |r| ensures r[i] in t {
      assert r[i] in multiset(r);
    }
  }

  lemma DistinctKeys<T>(t: seq<(T, nat)>, r: seq<(T, nat)>)
    requires multiset(r) == multiset(t)
    requires forall i, j :: 0 <= i < j < |t| ==> t[i].0 != t[j].0
    ensures forall i, j :: 0 <= i < j < |r| ==> r[i].0 != r[j].0
  {
    forall i, j | 0 <= i < j < |r| ensures r[i].0 != r[j].0 {
      if r[i].0 == r[j].0 {
        assert r[i] in multiset(t) && r[j] in multiset(t);
        var a :| 0 <= a < |t| && t[a] == r[i];
        var b :| 0 <= b < |t| && t[b] == r[j];
        if a == b {
          // Two equal entries in r would need two in t.
          assert r[i] == r[j];
          assert multiset(r)[r[i]] >= 2 by {
            var r' := r[..i] + r[i + 1..];
            assert r == r[..i] + [r[i]] + r[i + 1..];
            assert r[j] in r[i + 1..] by { assert r[i + 1..][j - i - 1] == r[j]; }
            assert r[j] in multiset(r');
          }
          OnlyOnce(t, a);
        }
      }
    }
  }

  lemma OnlyOnce<T>(t: seq<(T, nat)>, a: nat)
    requires a < |t|
    requires forall i, j :: 0 <= i < j < |t| ==> t[i].0 != t[j].0
    ensures multiset(t)[t[a]] == 1
  {
    var e := t[a];
    assert t == t[..a] + [e] + t[a + 1..];
    assert e !in t[..a] by {
      forall k | 0 <= k < a ensures t[..a][k] != e { assert t[k].0 != t[a].0; }
    }
    var suffix := t[a + 1..];
    assert e !in suffix by {
      forall k | 0 <= k < |suffix| ensures suffix[k] != e { assert suffix[k] == t[a + 1 + k]; }
    }
  }

  /** `head(n)` and the slice `s[:n]`: the first min(n, |s|) entries. */
  function Take<T>(s: seq<T>, n: nat): (r: seq<T>)
    ensures |r| == if n < |s| then n else |s|
    ensures r == s[..|r|]
  {
    if n < |s| then s[..n] else s
  }

  function Keys<K, V>(s: seq<(K, V)>): (r: seq<K>)
    ensures |r| == |s| && forall i :: 0 <= i < |s| ==> r[i] == s[i].0
  {
    seq(|s|, i requires 0 <= i < |s| => s[i].0)
  }

  /**
   * `value_counts().head(n).index.tolist()`: at most n distinct values, most
   * frequent first, and no value left out is more frequent than one kept.
   */
  lemma MostFrequent<T>(xs: seq<T>, n: nat)
    ensures var r := Keys(Take(ValueCounts(xs), n));
      |r| == (if n < |Distinct(xs)| then n else |Distinct(xs)|)
      && (forall i, j :: 0 <= i < j < |r| ==> r[i] != r[j])
      && (forall i :: 0 <= i < |r| ==> r[i] in xs)
      && (forall i, j :: 0 <= i < j < |r| ==> Count(xs, r[i]) >= Count(xs, r[j]))
      && (forall k, i :: 0 <= k < |xs| && xs[k] !in r && 0 <= i < |r| ==> Count(xs, xs[k]) <= Count(xs, r[i]))
  {
    var v := ValueCounts(xs);
    var r := Keys(Take(v, n));
    TakeKeys(v, n);
    forall i, j | 0 <= i < j < |r| ensures r[i] != r[j] && Count(xs, r[i]) >= Count(xs, r[j]) {
      assert r[i] == v[i].0 && r[j] == v[j].0;
    }
    forall i | 0 <= i < |r| ensures r[i] in xs {
      assert r[i] == v[i].0;
    }
    forall k, i | 0 <= k < |xs| && xs[k] !in r && 0 <= i < |r| ensures Count(xs, xs[k]) <= Count(xs, r[i]) {
      LeftOutIsLessFrequent(xs, n, k, i);
    }
  }

  lemma TakeKeys<K, V>(v: seq<(K, V)>, n: nat)
    ensures var r := Keys(Take(v, n));
      |r| == (if n < |v| then n else |v|) && forall i :: 0 <= i < |r| ==> r[i] == v[i].0
  {
  }

  lemma LeftOutIsLessFrequent<T>(xs: seq<T>, n: nat, k: nat, i: nat)
    requires k < |xs|
    requires var r := Keys(Take(ValueCounts(xs), n)); xs[k] !in r && i < |r|
    ensures Count(xs, xs[k]) <= Count(xs, Keys(Take(ValueCounts(xs), n))[i])
  {
    var v := ValueCounts(xs);
    var t := Take(v, n);
    var r := Keys(t);
    TakeKeys(v, n);
    var e := (xs[k], Count(xs, xs[k]));
    assert e in v;
    var m :| 0 <= m < |v| && v[m] == e;
    assert m >= |r| by {
      forall q | 0 <= q < |r| ensures v[q].0 != xs[k] {
        assert r[q] in r && r[q] == v[q].0;
      }
    }
    assert CountsDescending(v) && i < m;
    assert v[i].1 >= v[m].1;
  }

  // ---------------------------------------------------------------------------
  // Integer labels
  // ---------------------------------------------------------------------------

  /** The values of `xs` in [lo, hi], ascending. */
  function InRange(xs: seq<int>, lo: int, hi: int): (r: seq<int>)
    decreases hi - lo
    ensures forall i :: 0 <= i < |r| ==> lo <= r[i] <= hi && r[i] in xs
    ensures forall i :: 0 <= i < |xs| && lo <= xs[i] <= hi ==> xs[i] in r
    ensures forall i, j :: 0 <= i < j < |r| ==> r[i] < r[j]
  {
    if lo > hi then []
    else (if lo in xs then [lo] else []) + InRange(xs, lo + 1, hi)
  }

  function Min(xs: seq<int>): (m: int)
    requires |xs| > 0
    ensures m in xs && forall i :: 0 <= i < |xs| ==> m <= xs[i]
  {
    if |xs| == 1 then xs[0]
    else var m := Min(xs[1..]); if xs[0] <= m then xs[0] else m
  }

  function Max(xs: seq<int>): (m: int)
    requires |xs| > 0
    ensures m in xs && forall i :: 0 <= i < |xs| ==> xs[i] <= m
  {
    if |xs| == 1 then xs[0]
    else var m := Max(xs[1..]); if xs[0] >= m then xs[0] else m
  }

  /**
   * The elements of `set(xs)` in ascending order, the order in which CPython
   * iterates a set of small non-negative ints.
   */
  function Ascending(xs: seq<int>): (r: seq<int>)
    ensures forall i :: 0 <= i < |r| ==> r[i] in xs
    ensures forall i :: 0 <= i < |xs| ==> xs[i] in r
    ensures forall i, j :: 0 <= i < j < |r| ==> r[i] < r[j]
  {
    if xs == [] then [] else InRange(xs, Min(xs), Max(xs))
  }

  /** The number of elements of `xs` that belong to `d`. */
  function CountIn<T(==)>(xs: seq<T>, d: seq<T>): nat {
    if xs == [] then 0 else (if xs[0] in d then 1 else 0) + CountIn(xs[1..], d)
  }

  /** The sum over the values of `d` of how often each occurs in `xs`. */
  function SumOfCounts<T(==)>(xs: seq<T>, d: seq<T>): nat {
    if d == [] then 0 else Count(xs, d[0]) + SumOfCounts(xs, d[1..])
  }

  /** Counting value by value over distinct values counts every element of xs in d once. */
  lemma {:induction false} SumOfCountsIsCountIn<T>(xs: seq<T>, d: seq<T>)
    requires forall i, j :: 0 <= i < j < |d| ==> d[i] != d[j]
    decreases |d|
    ensures SumOfCounts(xs, d) == CountIn(xs, d)
  {
    if d != [] {
      SumOfCountsIsCountIn(xs, d[1..]);
      assert d[0] !in d[1..] by {
        forall k | 0 <= k < |d| - 1 ensures d[1..][k] != d[0] { assert d[1..][k] == d[k + 1]; }
      }
      SplitCountIn(xs, d);
      assert SumOfCounts(xs, d) == Count(xs, d[0]) + SumOfCounts(xs, d[1..]);
    } else {
      CountInNothing(xs, d);
    }
  }

  lemma {:induction false} CountInNothing<T>(xs: seq<T>, d: seq<T>)
    requires d == []
    ensures CountIn(xs, d) == 0
  {
    if xs != [] {
      CountInNothing(xs[1..], d);
    }
  }

  lemma {:induction false} SplitCountIn<T>(xs: seq<T>, d: seq<T>)
    requires |d| > 0 && d[0] !in d[1..]
    ensures CountIn(xs, d) == Count(xs, d[0]) + CountIn(xs, d[1..])
  {
    if xs != [] {
      SplitCountIn(xs[1..], d);
      assert xs == [xs[0]] + xs[1..];
      assert multiset(xs) == multiset{xs[0]} + multiset(xs[1..]);
      assert xs[0] in d <==> xs[0] == d[0] || xs[0] in d[1..] by {
        assert d == [d[0]] + d[1..];
      }
    }
  }

  /** CountIn depends only on which elements of xs are in d. */
  lemma {:induction false} CountInSame<T>(xs: seq<T>, d: seq<T>, e: seq<T>)
    requires forall i :: 0 <= i < |xs| ==> (xs[i] in d <==> xs[i] in e)
    ensures CountIn(xs, d) == CountIn(xs, e)
  {
    if xs != [] {
      CountInSame(xs[1..], d, e);
    }
  }

  /** The sum of the counts of `s`. */
  function TotalCount<T>(s: seq<(T, nat)>): nat {
    if s == [] then 0 else s[0].1 + TotalCount(s[1..])
  }

  /** The counts of value_counts() add up to the number of values counted. */
  lemma ValueCountsTotal<T>(xs: seq<T>)
    ensures TotalCount(ValueCounts(xs)) == |xs|
  {
    var r := ValueCounts(xs);
    var ks := Keys(r);
    assert forall i, j :: 0 <= i < j < |ks| ==> ks[i] != ks[j] by {
      assert forall i :: 0 <= i < |ks| ==> ks[i] == r[i].0;
    }
    TotalIsSumOfCounts(xs, r);
    SumOfCountsIsCountIn(xs, ks);
    forall i | 0 <= i < |xs| ensures xs[i] in ks {
      var m :| 0 <= m < |r| && r[m] == (xs[i], Count(xs, xs[i]));
      assert ks[m] == xs[i];
    }
    CountInAll(xs, ks);
  }

  lemma {:induction false} TotalIsSumOfCounts<T>(xs: seq<T>, s: seq<(T, nat)>)
    requires forall i :: 0 <= i < |s| ==> s[i].1 == Count(xs, s[i].0)
    ensures TotalCount(s) == SumOfCounts(xs, Keys(s))
  {
    if s != [] {
      TotalIsSumOfCounts(xs, s[1..]);
      assert Keys(s)[1..] == Keys(s[1..]);
    }
  }

  /** When every element of `xs` belongs to `d`, all of them are counted. */
  lemma {:induction false} CountInAll<T>(xs: seq<T>, d: seq<T>)
    requires forall i :: 0 <= i < |xs| ==> xs[i] in d
    ensures CountIn(xs, d) == |xs|
  {
    if xs != [] {
      CountInAll(xs[1..], d);
    }
  }

  /** The elements outside `d` are exactly the occurrences of `x`: they and CountIn make up xs. */
  lemma {:induction false} CountInAllBut<T>(xs: seq<T>, d: seq<T>, x: T)
    requires forall i :: 0 <= i < |xs| ==> (xs[i] in d <==> xs[i] != x)
    ensures CountIn(xs, d) + Count(xs, x) == |xs|
  {
    if xs != [] {
      CountInAllBut(xs[1..], d, x);
      assert xs == [xs[0]] + xs[1..];
      assert multiset(xs) == multiset{xs[0]} + multiset(xs[1..]);
    }
  }

  // ---------------------------------------------------------------------------
  // Subsequences
  // ---------------------------------------------------------------------------

  /** `a` is `b` with some elements left out. */
  predicate IsSubsequence<T(==)>(a: seq<T>, b: seq<T>) {
    if a == [] then true
    else if b == [] then false
    else (a[0] == b[0] && IsSubsequence(a[1..], b[1..])) || IsSubsequence(a, b[1..])
  }

  /** A subsequence of a sequence without duplicates has none. */
  lemma {:induction false} SubsequenceDistinct<T>(a: seq<T>, b: seq<T>)
    requires IsSubsequence(a, b)
    requires forall i, j :: 0 <= i < j < |b| ==> b[i] != b[j]
    ensures forall i, j :: 0 <= i < j < |a| ==> a[i] != a[j]
  {
    if a != [] && b != [] {
      assert forall i, j :: 0 <= i < j < |b| - 1 ==> b[1..][i] != b[1..][j];
      if a[0] == b[0] && IsSubsequence(a[1..], b[1..]) {
        SubsequenceDistinct(a[1..], b[1..]);
        SubsequenceElements(a[1..], b[1..]);
        forall i, j | 0 <= i < j < |a| ensures a[i] != a[j] {
          assert a[j] == a[1..][j - 1];
          if i == 0 {
            assert a[j] in b[1..];
            var m :| 0 <= m < |b| - 1 && b[1..][m] == a[j];
            assert b[m + 1] == a[j];
          } else {
            assert a[i] == a[1..][i - 1];
          }
        }
      } else {
        SubsequenceDistinct(a, b[1..]);
      }
    }
  }

  lemma {:induction false} SubsequenceElements<T>(a: seq<T>, b: seq<T>)
    requires IsSubsequence(a, b)
    ensures forall x :: x in a ==> x in b
  {
    if a != [] && b != [] {
      if a[0] == b[0] && IsSubsequence(a[1..], b[1..]) {
        SubsequenceElements(a[1..], b[1..]);
        forall x | x in a ensures x in b {
          if x != a[0] {
            assert x in a[1..];
            assert x in b[1..];
          }
        }
      } else {
        SubsequenceElements(a, b[1..]);
        forall x | x in a ensures x in b {
          assert x in b[1..];
        }
      }
    }
  }

  lemma {:induction false} SubsequenceLength<T>(a: seq<T>, b: seq<T>)
    requires IsSubsequence(a, b)
    ensures |a| <= |b|
  {
    if a != [] && b != [] {
      if a[0] == b[0] && IsSubsequence(a[1..], b[1..]) {
        SubsequenceLength(a[1..], b[1..]);
      } else {
        SubsequenceLength(a, b[1..]);
      }
    }
  }
}
