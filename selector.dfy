/**
 * The list of selections offered in the sidebar (main.py:34-38): every
 * distinct non-null sender except the group-notification sentinel, sorted,
 * with "Group" in front.
 */
module Selector {
  import opened Sorting
  import opened Counting
  import opened Frame
  import opened Preprocessor
  import opened Stats

  /** Python's `<` on strings: lexicographic by code point, a proper prefix first. */
  predicate StrLess(a: string, b: string) {
    if a == [] then b != []
    else b != [] && (a[0] < b[0] || (a[0] == b[0] && StrLess(a[1..], b[1..])))
  }

  function StrOrder(): (string, string) -> bool {
    (a: string, b: string) => StrLess(a, b)
  }

  lemma {:induction false} StrLessIrreflexive(a: string)
    ensures !StrLess(a, a)
  {
    if a != [] {
      StrLessIrreflexive(a[1..]);
    }
  }

  lemma {:induction false} StrLessTransitive(a: string, b: string, c: string)
    requires StrLess(a, b) && StrLess(b, c)
    ensures StrLess(a, c)
  {
    if a != [] && a[0] == b[0] && b[0] == c[0] {
      StrLessTransitive(a[1..], b[1..], c[1..]);
    }
  }

  lemma {:induction false} StrLessTotal(a: string, b: string)
    requires a != b
    ensures StrLess(a, b) || StrLess(b, a)
  {
    if a != [] && b != [] && a[0] == b[0] {
      assert a == [a[0]] + a[1..] && b == [b[0]] + b[1..];
      StrLessTotal(a[1..], b[1..]);
    }
  }

  /** String comparison is a strict total order on any list of strings. */
  lemma StrOrderTotal(s: seq<string>)
    ensures StrictTotalOn(s, StrOrder())
  {
    var before := StrOrder();
    forall a, b | a in s && b in s && a != b ensures before(a, b) || before(b, a) {
      StrLessTotal(a, b);
    }
    forall a | a in s ensures !before(a, a) {
      StrLessIrreflexive(a);
    }
    forall a, b, c | a in s && b in s && c in s && before(a, b) && before(b, c) ensures before(a, c) {
      StrLessTransitive(a, b, c);
    }
  }

  /** `list.remove(x)`: the list without the first occurrence of `x`. */
  function RemoveFirst(xs: seq<string>, x: string): (r: seq<string>)
    requires x in xs
    ensures |r| == |xs| - 1
    ensures multiset(r) == multiset(xs) - multiset{x}
  {
    if xs[0] == x then
      assert xs == [xs[0]] + xs[1..];
      xs[1..]
    else
      assert xs == [xs[0]] + xs[1..];
      [xs[0]] + RemoveFirst(xs[1..], x)
  }

  /** From a list without duplicates, `remove` takes out exactly `x` and leaves no duplicates. */
  lemma {:induction false} RemoveFirstDistinct(xs: seq<string>, x: string)
    requires x in xs && NoDuplicates(xs)
    ensures NoDuplicates(RemoveFirst(xs, x))
    ensures forall s :: s in RemoveFirst(xs, x) <==> s in xs && s != x
  {
    var tail := xs[1..];
    assert forall s :: s in xs <==> s == xs[0] || s in tail;
    assert forall k :: 0 <= k < |tail| ==> tail[k] == xs[k + 1];
    assert xs[0] !in tail;
    if xs[0] != x {
      RemoveFirstDistinct(tail, x);
      var rest := RemoveFirst(tail, x);
      assert RemoveFirst(xs, x) == [xs[0]] + rest;
      assert forall k :: 0 <= k < |rest| ==> ([xs[0]] + rest)[k + 1] == rest[k];
    }
  }

  /** The senders of `df`, nulls dropped: `df['Sender'].dropna()`. */
  function Senders(df: seq<Record>): seq<string> {
    Pick(df, SenderOf)
  }

  /**
   * main.py:34-38. "Group" comes first; the rest are sorted ascending with
   * no repeats, and are exactly the distinct non-null senders other than
   * the group-notification sentinel.
   */
  method UserOptions(df: seq<Record>) returns (users: seq<string>)
    ensures |users| >= 1 && users[0] == Everyone
    ensures forall i, j :: 1 <= i < j < |users| ==> StrLess(users[i], users[j])
    ensures forall s :: s in users[1..] <==> s in Senders(df) && s != GroupNotification
    ensures |users| == |Distinct(Senders(df))| + 1 - (if GroupNotification in Senders(df) then 1 else 0)
  {
    var senders := Senders(df);
    users := Distinct(senders);
    assert forall s :: s in users <==> s in senders;
    if GroupNotification in users {
      RemoveFirstDistinct(users, GroupNotification);
      users := RemoveFirst(users, GroupNotification);
    }
    assert NoDuplicates(users);
    assert forall s :: s in users <==> s in senders && s != GroupNotification;

    var unsorted := users;
    StrOrderTotal(unsorted);
    SortSorted(unsorted, StrOrder());
    users := Sort(unsorted, StrOrder());
    assert forall s :: s in users <==> s in multiset(unsorted);

    users := [Everyone] + users;
    assert users[1..] == Sort(unsorted, StrOrder());
  }
}
