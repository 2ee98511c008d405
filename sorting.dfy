/**
 * Sorting a sequence by a strict total order: the model of Python's
 * `list.sort()` on distinct strings and of the stable ordering that
 * `Counter.most_common` produces.
 */
module Sorting {

  predicate NoDuplicates<T(==)>(s: seq<T>) {
    forall i, j :: 0 <= i < j < |s| ==> s[i] != s[j]
  }

  /** `before` is a strict total order on the elements of `s`. */
  ghost predicate StrictTotalOn<T>(s: seq<T>, before: (T, T) -> bool) {
    (forall a, b :: a in s && b in s && a != b ==> before(a, b) || before(b, a)) &&
    (forall a :: a in s ==> !before(a, a)) &&
    (forall a, b, c :: a in s && b in s && c in s && before(a, b) && before(b, c) ==> before(a, c))
  }

  /** Every element comes before every later one. */
  ghost predicate SortedBy<T>(s: seq<T>, before: (T, T) -> bool) {
    forall i, j :: 0 <= i < j < |s| ==> before(s[i], s[j])
  }

  /** Places `x` in front of the first element it comes before. */
  function Insert<T>(x: T, s: seq<T>, before: (T, T) -> bool): (r: seq<T>)
    ensures multiset(r) == multiset(s) + multiset{x}
  {
    if s == [] || before(x, s[0]) then [x] + s
    else
      assert s == [s[0]] + s[1..];
      [s[0]] + Insert(x, s[1..], before)
  }

  /** Insertion sort. */
  function Sort<T>(s: seq<T>, before: (T, T) -> bool): (r: seq<T>)
    ensures multiset(r) == multiset(s)
  {
    if s == [] then []
    else
      assert s == [s[0]] + s[1..];
      Insert(s[0], Sort(s[1..], before), before)
  }

  lemma {:induction false} InsertSorted<T>(x: T, s: seq<T>, before: (T, T) -> bool)
    requires SortedBy(s, before) && x !in s
    requires StrictTotalOn([x] + s, before)
    ensures SortedBy(Insert(x, s, before), before)
  {
    if s != [] && !before(x, s[0]) {
      assert s[0] in [x] + s && x in [x] + s;
      assert before(s[0], x);
      var rest := s[1..];
      assert StrictTotalOn([x] + rest, before) by {
        forall a | a in [x] + rest ensures a in [x] + s {
        }
      }
      InsertSorted(x, rest, before);
      var r := Insert(x, rest, before);
      assert multiset(r) == multiset(rest) + multiset{x};
      forall j | 0 <= j < |r| ensures before(s[0], r[j]) {
        assert r[j] in multiset(r);
        if r[j] != x {
          assert r[j] in rest;
        }
      }
    } else if s != [] {
      forall j | 0 <= j < |s| ensures before(x, s[j]) {
        if j > 0 {
          assert s[j] in [x] + s && s[0] in [x] + s && x in [x] + s;
        }
      }
    }
  }

  /** The result is ordered by `before` (and, by its contract, a permutation of `s`). */
  lemma {:induction false} SortSorted<T>(s: seq<T>, before: (T, T) -> bool)
    requires NoDuplicates(s) && StrictTotalOn(s, before)
    ensures SortedBy(Sort(s, before), before)
  {
    if s != [] {
      var rest := s[1..];
      assert StrictTotalOn(rest, before) by {
        forall a | a in rest ensures a in s {
        }
      }
      assert NoDuplicates(rest);
      SortSorted(rest, before);
      var r := Sort(rest, before);
      assert s[0] !in rest by {
        forall k | 0 <= k < |rest| ensures rest[k] != s[0] {
          assert rest[k] == s[k + 1];
        }
      }
      assert s[0] !in r by {
        assert s[0] !in multiset(rest);
        assert multiset(r) == multiset(rest);
      }
      assert StrictTotalOn([s[0]] + r, before) by {
        forall a | a in [s[0]] + r ensures a in s {
          if a != s[0] {
            assert a in multiset(r);
          }
        }
      }
      InsertSorted(s[0], r, before);
    }
  }
}
