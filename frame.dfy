/**
 * Column operations of a data frame, on sequences of rows: a boolean mask
 * (`df[mask]`), a column with its nulls dropped (`df[col].dropna()`), and
 * the row indices a mask selects. Rows keep their order throughout.
 */
module Frame {
  import opened Wrappers

  /** The elements of `xs` that `keep` accepts, in their original order. */
  function Filter<T(==)>(xs: seq<T>, keep: T -> bool): (r: seq<T>)
    ensures |r| <= |xs|
    ensures forall k :: 0 <= k < |r| ==> keep(r[k]) && r[k] in xs
    ensures forall k :: 0 <= k < |xs| && keep(xs[k]) ==> xs[k] in r
  {
    if xs == [] then []
    else
      var n := |xs| - 1;
      var front := Filter(xs[..n], keep);
      assert forall k :: 0 <= k < n ==> xs[..n][k] == xs[k];
      front + (if keep(xs[n]) then [xs[n]] else [])
  }

  /** An element survives the mask exactly when it occurs and the mask accepts it. */
  lemma FilterMembers<T>(xs: seq<T>, keep: T -> bool)
    ensures forall x :: x in Filter(xs, keep) <==> x in xs && keep(x)
  {
    forall x | x in xs && keep(x) ensures x in Filter(xs, keep) {
      var k :| 0 <= k < |xs| && xs[k] == x;
    }
  }

  lemma {:induction false} FilterAppend<T>(a: seq<T>, b: seq<T>, keep: T -> bool)
    ensures Filter(a + b, keep) == Filter(a, keep) + Filter(b, keep)
    decreases |b|
  {
    if b == [] {
      assert a + b == a;
    } else {
      var n := |b| - 1;
      assert (a + b)[..|a + b| - 1] == a + b[..n];
      FilterAppend(a, b[..n], keep);
    }
  }

  /** A mask that accepts every element keeps the sequence as it is. */
  lemma {:induction false} FilterAll<T>(xs: seq<T>, keep: T -> bool)
    requires forall k :: 0 <= k < |xs| ==> keep(xs[k])
    ensures Filter(xs, keep) == xs
  {
    if xs != [] {
      var n := |xs| - 1;
      FilterAll(xs[..n], keep);
      assert xs[..n] + [xs[n]] == xs;
    }
  }

  /** Two tests that never both accept one element select at most `|xs|` elements together. */
  lemma {:induction false} FilterDisjoint<T>(xs: seq<T>, p: T -> bool, q: T -> bool)
    requires forall k :: 0 <= k < |xs| ==> !(p(xs[k]) && q(xs[k]))
    ensures |Filter(xs, p)| + |Filter(xs, q)| <= |xs|
  {
    if xs != [] {
      var n := |xs| - 1;
      assert forall k :: 0 <= k < n ==> xs[..n][k] == xs[k];
      FilterDisjoint(xs[..n], p, q);
    }
  }

  function Kept<U>(m: Option<U>): seq<U> {
    match m
    case None => []
    case Some(v) => [v]
  }

  /** The column `f` of the rows `xs` with its nulls dropped, in row order. */
  function Pick<T, U>(xs: seq<T>, f: T -> Option<U>): seq<U> {
    if xs == [] then [] else Pick(xs[..|xs| - 1], f) + Kept(f(xs[|xs| - 1]))
  }

  lemma PickSnoc<T, U>(xs: seq<T>, f: T -> Option<U>, i: nat)
    requires i < |xs|
    ensures Pick(xs[..i + 1], f) == Pick(xs[..i], f) + Kept(f(xs[i]))
  {
    assert xs[..i + 1][..i] == xs[..i];
  }

  /** With no null in the column, every row contributes its value, in place. */
  lemma {:induction false} PickAll<T, U>(xs: seq<T>, f: T -> Option<U>)
    requires forall k :: 0 <= k < |xs| ==> f(xs[k]).Some?
    ensures |Pick(xs, f)| == |xs|
    ensures forall k :: 0 <= k < |xs| ==> Pick(xs, f)[k] == f(xs[k]).value
  {
    if xs != [] {
      var n := |xs| - 1;
      assert forall k :: 0 <= k < n ==> xs[..n][k] == xs[k];
      PickAll(xs[..n], f);
    }
  }

  /** Each value of the dropped-null column comes from a row, and each non-null row gives one. */
  lemma {:induction false} PickMembers<T, U>(xs: seq<T>, f: T -> Option<U>)
    ensures forall v :: v in Pick(xs, f) <==> exists k :: 0 <= k < |xs| && f(xs[k]) == Some(v)
  {
    if xs != [] {
      var n := |xs| - 1;
      assert forall k :: 0 <= k < n ==> xs[..n][k] == xs[k];
      PickMembers(xs[..n], f);
      forall v | (exists k :: 0 <= k < |xs| && f(xs[k]) == Some(v)) ensures v in Pick(xs, f) {
        var k :| 0 <= k < |xs| && f(xs[k]) == Some(v);
        if k < n {
          assert f(xs[..n][k]) == Some(v);
        }
      }
    }
  }

  /** The indices of the elements `p` accepts, ascending. */
  function Where<T>(xs: seq<T>, p: T -> bool): (o: seq<nat>)
    ensures forall k :: 0 <= k < |o| ==> o[k] < |xs| && p(xs[o[k]])
    ensures forall k, l :: 0 <= k < l < |o| ==> o[k] < o[l]
    ensures forall i :: 0 <= i < |xs| && p(xs[i]) ==> i in o
  {
    if xs == [] then []
    else
      var n := |xs| - 1;
      var front := xs[..n];
      assert forall i :: 0 <= i < n ==> front[i] == xs[i];
      Where(front, p) + (if p(xs[n]) then [n] else [])
  }

  /** The k-th value of the dropped-null column comes from row `Where(xs, p)[k]`, `p` being "not null". */
  lemma {:induction false} PickWhere<T, U>(xs: seq<T>, f: T -> Option<U>, p: T -> bool)
    requires forall k :: 0 <= k < |xs| ==> (p(xs[k]) <==> f(xs[k]).Some?)
    ensures |Pick(xs, f)| == |Where(xs, p)|
    ensures forall k :: 0 <= k < |Where(xs, p)| ==> f(xs[Where(xs, p)[k]]) == Some(Pick(xs, f)[k])
  {
    if xs != [] {
      var n := |xs| - 1;
      var front := xs[..n];
      assert forall i :: 0 <= i < n ==> front[i] == xs[i];
      PickWhere(front, f, p);
      var picked, where := Pick(front, f), Where(front, p);
      assert Pick(xs, f) == picked + Kept(f(xs[n]));
      assert Where(xs, p) == where + (if p(xs[n]) then [n] else []);
      forall k | 0 <= k < |where| ensures f(xs[where[k]]) == Some(picked[k]) {
        assert f(front[where[k]]) == Some(picked[k]);
      }
      if p(xs[n]) {
        assert Pick(xs, f)[|picked|] == f(xs[n]).value;
      }
    }
  }
}
