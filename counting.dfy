/**
 * Python's `collections.Counter(xs).most_common(n)`: every distinct value
 * with its number of occurrences, most frequent first. The counter keeps
 * values in first-seen order and `most_common` sorts stably by count, so
 * values with equal counts stay in the order in which they were first
 * seen; `Ranks` states that order directly.
 */
module Counting {
  import opened Wrappers
  import opened Sorting

  /** Occurrences of `x` in `xs`. */
  function Count<T(==)>(xs: seq<T>, x: T): (n: nat)
    ensures n <= |xs|
    ensures n > 0 <==> x in xs
  {
    if xs == [] then 0
    else
      assert xs == xs[..|xs| - 1] + [xs[|xs| - 1]];
      Count(xs[..|xs| - 1], x) + (if xs[|xs| - 1] == x then 1 else 0)
  }

  /** Index of the first occurrence of `x` in `xs`, or `|xs|` when there is none. */
  function FirstIndex<T(==)>(xs: seq<T>, x: T): (i: nat)
    ensures i <= |xs|
    ensures i < |xs| <==> x in xs
    ensures i < |xs| ==> xs[i] == x
    ensures x !in xs[..i]
  {
    if xs == [] || xs[0] == x then 0
    else
      assert xs[..1 + FirstIndex(xs[1..], x)] == [xs[0]] + xs[1..][..FirstIndex(xs[1..], x)];
      1 + FirstIndex(xs[1..], x)
  }

  /** The distinct values of `xs` (pandas' `unique()`, a counter's keys). */
  function Distinct<T(==)>(xs: seq<T>): (d: seq<T>)
    ensures NoDuplicates(d)
    ensures forall i :: 0 <= i < |d| ==> d[i] in xs
    ensures forall i :: 0 <= i < |xs| ==> xs[i] in d
    ensures |d| <= |xs|
  {
    if xs == [] then []
    else
      var p, x := Distinct(xs[..|xs| - 1]), xs[|xs| - 1];
      assert xs == xs[..|xs| - 1] + [x];
      if x in p then p else p + [x]
  }

  /** A counter: each distinct value paired with its number of occurrences. */
  function Tally<T(==)>(xs: seq<T>): seq<(T, nat)> {
    var d := Distinct(xs);
    seq(|d|, k requires 0 <= k < |d| => (d[k], Count(xs, d[k])))
  }

  /** `x` ranks ahead of `y` among the values of `xs`: more occurrences, or as many and seen first. */
  predicate RanksAhead<T(==)>(xs: seq<T>, x: T, y: T) {
    Count(xs, x) > Count(xs, y) || (Count(xs, x) == Count(xs, y) && FirstIndex(xs, x) < FirstIndex(xs, y))
  }

  predicate Ranks<T(==)>(xs: seq<T>, a: (T, nat), b: (T, nat)) {
    a.1 > b.1 || (a.1 == b.1 && FirstIndex(xs, a.0) < FirstIndex(xs, b.0))
  }

  function RankOrder<T(==)>(xs: seq<T>): ((T, nat), (T, nat)) -> bool {
    (a, b) => Ranks(xs, a, b)
  }

  /** Every distinct value with its count, in ranking order. */
  function Ranked<T(==)>(xs: seq<T>): seq<(T, nat)> {
    Sort(Tally(xs), RankOrder(xs))
  }

  /** `Counter(xs).most_common(n)`, where `None` stands for `most_common()` with no limit. */
  function MostCommon<T(==)>(xs: seq<T>, n: Option<nat>): seq<(T, nat)> {
    var r := Ranked(xs);
    if n.Some? && n.value < |r| then r[..n.value] else r
  }

  /** The values a result lists. */
  function Items<T>(r: seq<(T, nat)>): set<T> {
    set i | 0 <= i < |r| :: r[i].0
  }

  /** Sum of the counts of a result. */
  function Total<T>(r: seq<(T, nat)>): nat {
    if r == [] then 0 else r[0].1 + Total(r[1..])
  }

  // ---------------------------------------------------------------------------
  // Facts about the counter

  lemma TallyFacts<T>(xs: seq<T>)
    ensures |Tally(xs)| == |Distinct(xs)|
    ensures forall e :: e in Tally(xs) <==> e.0 in xs && e.1 == Count(xs, e.0)
    ensures NoDuplicates(Tally(xs))
  {
    var d, t := Distinct(xs), Tally(xs);
    forall e: (T, nat) | e.0 in xs && e.1 == Count(xs, e.0) ensures e in t {
      var k :| 0 <= k < |d| && d[k] == e.0;
      assert t[k] == e;
    }
  }

  lemma RankOrderTotal<T>(xs: seq<T>)
    ensures StrictTotalOn(Tally(xs), RankOrder(xs))
  {
    var t, before := Tally(xs), RankOrder(xs);
    TallyFacts(xs);
    forall a, b | a in t && b in t && a != b ensures before(a, b) || before(b, a) {
      assert a.0 != b.0;
      assert xs[FirstIndex(xs, a.0)] == a.0 && xs[FirstIndex(xs, b.0)] == b.0;
    }
  }

  // ---------------------------------------------------------------------------
  // What `most_common` promises

  lemma RankedFacts<T>(xs: seq<T>)
    ensures |Ranked(xs)| == |Distinct(xs)|
    ensures SortedBy(Ranked(xs), RankOrder(xs))
    ensures forall i :: 0 <= i < |Ranked(xs)| ==> Ranked(xs)[i].0 in xs && Ranked(xs)[i].1 == Count(xs, Ranked(xs)[i].0)
    ensures forall x :: x in xs ==> (x, Count(xs, x)) in Ranked(xs)
  {
    var t, before := Tally(xs), RankOrder(xs);
    var sorted := Sort(t, before);
    TallyFacts(xs);
    RankOrderTotal(xs);
    SortSorted(t, before);
    assert |sorted| == |t| by {
      assert |multiset(sorted)| == |multiset(t)|;
    }
    forall i | 0 <= i < |sorted| ensures sorted[i].0 in xs && sorted[i].1 == Count(xs, sorted[i].0) {
      assert sorted[i] in multiset(sorted);
      assert sorted[i] in t;
    }
    forall x | x in xs ensures (x, Count(xs, x)) in sorted {
      assert (x, Count(xs, x)) in t;
      assert (x, Count(xs, x)) in multiset(t);
    }
  }

  /**
   * At most `n` entries (all distinct values when there is no limit), and
   * every entry is a value of `xs` paired with its exact count.
   */
  lemma MostCommonEntries<T>(xs: seq<T>, n: Option<nat>)
    ensures |MostCommon(xs, n)| == if n.Some? && n.value < |Distinct(xs)| then n.value else |Distinct(xs)|
    ensures var r := MostCommon(xs, n);
      forall i :: 0 <= i < |r| ==> r[i].0 in xs && r[i].1 == Count(xs, r[i].0)
  {
    var sorted := Ranked(xs);
    RankedFacts(xs);
    var r := MostCommon(xs, n);
    assert r == sorted[..|r|];
    assert forall i :: 0 <= i < |r| ==> r[i] == sorted[i];
  }

  /** Entries are distinct and each ranks ahead of the next: counts never increase, ties in first-seen order. */
  lemma MostCommonOrdered<T>(xs: seq<T>, n: Option<nat>)
    ensures var r := MostCommon(xs, n);
      forall i, j :: 0 <= i < j < |r| ==> r[i].0 != r[j].0 && RanksAhead(xs, r[i].0, r[j].0)
  {
    var sorted, before := Ranked(xs), RankOrder(xs);
    RankedFacts(xs);
    var r := MostCommon(xs, n);
    assert r == sorted[..|r|];
    forall i, j | 0 <= i < j < |r| ensures r[i].0 != r[j].0 && RanksAhead(xs, r[i].0, r[j].0) {
      assert r[i] == sorted[i] && r[j] == sorted[j];
      assert before(sorted[i], sorted[j]);
      assert Ranks(xs, sorted[i], sorted[j]);
    }
  }

  /** Every value that a limited result leaves out ranks behind every value it lists. */
  lemma MostCommonOmitted<T>(xs: seq<T>, n: Option<nat>)
    ensures var r := MostCommon(xs, n);
      forall x, i :: x in xs && x !in Items(r) && 0 <= i < |r| ==> RanksAhead(xs, r[i].0, x)
  {
    var r := MostCommon(xs, n);
    forall x, i | x in xs && x !in Items(r) && 0 <= i < |r| ensures RanksAhead(xs, r[i].0, x) {
      OmittedBehind(xs, n, x, i);
    }
  }

  lemma OmittedBehind<T>(xs: seq<T>, n: Option<nat>, x: T, i: nat)
    requires x in xs && x !in Items(MostCommon(xs, n)) && i < |MostCommon(xs, n)|
    ensures RanksAhead(xs, MostCommon(xs, n)[i].0, x)
  {
    var sorted, before := Ranked(xs), RankOrder(xs);
    RankedFacts(xs);
    var r := MostCommon(xs, n);
    assert r == sorted[..|r|];
    var e := (x, Count(xs, x));
    var k :| 0 <= k < |sorted| && sorted[k] == e;
    forall j | 0 <= j < |r| ensures sorted[j].0 != x {
      assert r[j].0 in Items(r);
    }
    assert i < k;
    assert before(sorted[i], sorted[k]);
    assert Ranks(xs, sorted[i], sorted[k]);
  }

  lemma {:induction false} TotalInsert<T>(e: (T, nat), s: seq<(T, nat)>, before: ((T, nat), (T, nat)) -> bool)
    ensures Total(Insert(e, s, before)) == e.1 + Total(s)
  {
    if s != [] && !before(e, s[0]) {
      TotalInsert(e, s[1..], before);
    }
  }

  lemma {:induction false} TotalSort<T>(s: seq<(T, nat)>, before: ((T, nat), (T, nat)) -> bool)
    ensures Total(Sort(s, before)) == Total(s)
  {
    if s != [] {
      TotalSort(s[1..], before);
      TotalInsert(s[0], Sort(s[1..], before), before);
    }
  }

  /** Sum of the counts of the values of `d` in `xs`. */
  function SumCounts<T(==)>(d: seq<T>, xs: seq<T>): nat {
    if d == [] then 0 else SumCounts(d[..|d| - 1], xs) + Count(xs, d[|d| - 1])
  }

  lemma {:induction false} SumCountsExtend<T>(d: seq<T>, xs: seq<T>, x: T)
    requires NoDuplicates(d)
    ensures SumCounts(d, xs + [x]) == SumCounts(d, xs) + (if x in d then 1 else 0)
  {
    if d != [] {
      var p := d[..|d| - 1];
      assert d == p + [d[|d| - 1]];
      SumCountsExtend(p, xs, x);
      assert (xs + [x])[..|xs|] == xs;
    }
  }

  lemma {:induction false} SumCountsDistinct<T>(xs: seq<T>)
    ensures SumCounts(Distinct(xs), xs) == |xs|
  {
    if xs != [] {
      var p, x := xs[..|xs| - 1], xs[|xs| - 1];
      assert xs == p + [x];
      SumCountsDistinct(p);
      SumCountsExtend(Distinct(p), p, x);
      if x !in Distinct(p) {
        var d := Distinct(p) + [x];
        assert d[..|d| - 1] == Distinct(p);
        assert Count(p, x) == 0;
        assert xs[..|xs| - 1] == p;
      }
    }
  }

  lemma {:induction false} TotalTally<T>(xs: seq<T>, k: nat)
    requires k <= |Distinct(xs)|
    ensures Total(Tally(xs)[..k]) == SumCounts(Distinct(xs)[..k], xs)
  {
    if k > 0 {
      TotalTally(xs, k - 1);
      var t, d := Tally(xs), Distinct(xs);
      assert d[..k][..k - 1] == d[..k - 1];
      TotalAppend(t[..k - 1], [t[k - 1]]);
      assert t[..k] == t[..k - 1] + [t[k - 1]];
    }
  }

  lemma {:induction false} TotalAppend<T>(a: seq<(T, nat)>, b: seq<(T, nat)>)
    ensures Total(a + b) == Total(a) + Total(b)
  {
    if a != [] {
      assert (a + b)[1..] == a[1..] + b;
      TotalAppend(a[1..], b);
    } else {
      assert a + b == b;
    }
  }

  /** Without a limit the counts add up to the number of values counted. */
  lemma MostCommonTotal<T>(xs: seq<T>)
    ensures Total(MostCommon(xs, None)) == |xs|
  {
    var t := Tally(xs);
    TotalSort(t, RankOrder(xs));
    assert MostCommon(xs, None) == Sort(t, RankOrder(xs));
    TotalTally(xs, |Distinct(xs)|);
    assert t[..|t|] == t;
    assert Distinct(xs)[..|Distinct(xs)|] == Distinct(xs);
    SumCountsDistinct(xs);
  }

  /** Without a limit every value that occurs is listed. */
  lemma MostCommonCovers<T>(xs: seq<T>)
    ensures forall x :: x in xs ==> x in Items(MostCommon(xs, None))
  {
    RankedFacts(xs);
    var r := MostCommon(xs, None);
    forall x | x in xs ensures x in Items(r) {
      var i :| 0 <= i < |r| && r[i] == (x, Count(xs, x));
    }
  }
}
