/**
 * Python's stable `list.sort(key=...)` / `sorted(..., key=...)`, for a key
 * order given as a strict "goes before" relation.
 */
module Sorting {

  /** A strict order: nothing goes before itself, and "goes before" chains. */
  ghost predicate StrictOrder<T(!new)>(before: (T, T) -> bool)
  {
    (forall a :: !before(a, a)) &&
    (forall a, b, c :: before(a, b) && before(b, c) ==> before(a, c))
  }

  /** No later element goes strictly before an earlier one. */
  ghost predicate SortedBy<T>(xs: seq<T>, before: (T, T) -> bool)
  {
    forall i, j :: 0 <= i < j < |xs| ==> !before(xs[j], xs[i])
  }

  /** Insert `x` after every element it does not go strictly before. */
  function Insert<T>(x: T, xs: seq<T>, before: (T, T) -> bool): (r: seq<T>)
    ensures multiset(r) == multiset(xs) + multiset{x}
    ensures |r| == |xs| + 1
  {
    if |xs| == 0 then [x]
    else if before(x, xs[0]) then [x] + xs
    else
      assert xs == [xs[0]] + xs[1..];
      [xs[0]] + Insert(x, xs[1..], before)
  }

  /** Insertion sort: inserting each element in turn keeps equal keys in input order. */
  function SortBy<T>(xs: seq<T>, before: (T, T) -> bool): (r: seq<T>)
    ensures multiset(r) == multiset(xs)
    ensures |r| == |xs|
  {
    if |xs| == 0 then []
    else
      assert xs == xs[..|xs| - 1] + [xs[|xs| - 1]];
      Insert(xs[|xs| - 1], SortBy(xs[..|xs| - 1], before), before)
  }

  lemma {:induction false} InsertSorted<T(!new)>(x: T, xs: seq<T>, before: (T, T) -> bool)
    requires StrictOrder(before)
    requires SortedBy(xs, before)
    ensures SortedBy(Insert(x, xs, before), before)
  {
    if |xs| == 0 {
    } else if before(x, xs[0]) {
      var r := [x] + xs;
      forall i, j | 0 <= i < j < |r|
        ensures !before(r[j], r[i])
      {
        if i == 0 {
          assert !before(xs[j - 1], xs[0]) || j - 1 == 0;
        }
      }
    } else {
      var rest := Insert(x, xs[1..], before);
      InsertSorted(x, xs[1..], before);
      var r := [xs[0]] + rest;
      forall i, j | 0 <= i < j < |r|
        ensures !before(r[j], r[i])
      {
        if i == 0 {
          assert r[j] in multiset(rest);
          assert r[j] in multiset(xs[1..]) || r[j] == x;
          if r[j] != x {
            var k :| 1 <= k < |xs| && xs[k] == r[j] by {
              assert r[j] in xs[1..];
            }
          }
        }
      }
    }
  }

  /** The sort returns its input reordered by key. */
  lemma {:induction false} SortBySorted<T(!new)>(xs: seq<T>, before: (T, T) -> bool)
    requires StrictOrder(before)
    ensures SortedBy(SortBy(xs, before), before)
    ensures multiset(SortBy(xs, before)) == multiset(xs)
  {
    if |xs| > 0 {
      SortBySorted(xs[..|xs| - 1], before);
      InsertSorted(xs[|xs| - 1], SortBy(xs[..|xs| - 1], before), before);
    }
  }

  /** Neither goes strictly before the other: the two have equal keys. */
  ghost predicate Equiv<T>(before: (T, T) -> bool, a: T, b: T)
  {
    !before(a, b) && !before(b, a)
  }

  /** A strict order whose "equal keys" relation chains too, as a key order does. */
  ghost predicate StrictWeakOrder<T(!new)>(before: (T, T) -> bool)
  {
    StrictOrder(before) &&
    forall a, b, c :: Equiv(before, a, b) && Equiv(before, b, c) ==> Equiv(before, a, c)
  }

  /** The elements of `xs` whose key equals `y`'s, in their order in `xs`. */
  ghost function SameKey<T>(xs: seq<T>, y: T, before: (T, T) -> bool): (r: seq<T>)
    ensures |r| <= |xs|
    ensures forall z :: z in r ==> z in xs && Equiv(before, z, y)
  {
    if |xs| == 0 then []
    else (if Equiv(before, xs[0], y) then [xs[0]] else []) + SameKey(xs[1..], y, before)
  }

  lemma {:induction false} SameKeyAppend<T>(xs: seq<T>, ys: seq<T>, y: T, before: (T, T) -> bool)
    ensures SameKey(xs + ys, y, before) == SameKey(xs, y, before) + SameKey(ys, y, before)
  {
    if |xs| == 0 {
      assert xs + ys == ys;
    } else {
      assert (xs + ys)[0] == xs[0];
      assert (xs + ys)[1..] == xs[1..] + ys;
      SameKeyAppend(xs[1..], ys, y, before);
    }
  }

  /** In a sorted list, nothing after an element that goes strictly after `x` has `x`'s key. */
  lemma {:induction false} SortedNoSameKey<T(!new)>(x: T, s: seq<T>, y: T, before: (T, T) -> bool)
    requires StrictWeakOrder(before) && SortedBy(s, before)
    requires |s| > 0 && before(x, s[0]) && Equiv(before, x, y)
    ensures SameKey(s, y, before) == []
  {
    forall k | 0 <= k < |s| ensures !Equiv(before, s[k], y) {
      if Equiv(before, s[k], y) {
        assert Equiv(before, y, s[k]);
        assert Equiv(before, x, s[k]);
        if k > 0 {
          assert !before(s[k], s[0]);
          if !before(s[0], s[k]) {
            assert Equiv(before, s[k], s[0]);
          }
        }
      }
    }
    SameKeyNone(s, y, before);
  }

  /** No element with `y`'s key: nothing is kept. */
  lemma {:induction false} SameKeyNone<T>(s: seq<T>, y: T, before: (T, T) -> bool)
    requires forall k :: 0 <= k < |s| ==> !Equiv(before, s[k], y)
    ensures SameKey(s, y, before) == []
  {
    if |s| > 0 {
      SameKeyNone(s[1..], y, before);
    }
  }

  /** Inserting into a sorted list puts `x` after every element with its key. */
  lemma {:induction false} InsertSameKey<T(!new)>(x: T, s: seq<T>, y: T, before: (T, T) -> bool)
    requires StrictWeakOrder(before) && SortedBy(s, before)
    ensures SameKey(Insert(x, s, before), y, before) ==
            SameKey(s, y, before) + (if Equiv(before, x, y) then [x] else [])
  {
    if |s| == 0 {
    } else if before(x, s[0]) {
      assert ([x] + s)[1..] == s;
      if Equiv(before, x, y) {
        SortedNoSameKey(x, s, y, before);
      }
    } else {
      assert SortedBy(s[1..], before);
      InsertSameKey(x, s[1..], y, before);
      assert ([s[0]] + Insert(x, s[1..], before))[1..] == Insert(x, s[1..], before);
    }
  }

  /**
   * `sorted` is stable: for every key, the elements with that key leave the
   * sort in the order they came in.
   */
  lemma {:induction false} SortByStable<T(!new)>(xs: seq<T>, y: T, before: (T, T) -> bool)
    requires StrictWeakOrder(before)
    ensures SameKey(SortBy(xs, before), y, before) == SameKey(xs, y, before)
  {
    if |xs| > 0 {
      var init, last := xs[..|xs| - 1], xs[|xs| - 1];
      SortByStable(init, y, before);
      SortBySorted(init, before);
      InsertSameKey(last, SortBy(init, before), y, before);
      SameKeyLast(xs, y, before);
    }
  }

  /** The elements with `y`'s key in a non-empty list: those before its last element, then possibly the last. */
  lemma SameKeyLast<T>(xs: seq<T>, y: T, before: (T, T) -> bool)
    requires |xs| > 0
    ensures SameKey(xs, y, before) ==
            SameKey(xs[..|xs| - 1], y, before) + (if Equiv(before, xs[|xs| - 1], y) then [xs[|xs| - 1]] else [])
  {
    var init, last := xs[..|xs| - 1], xs[|xs| - 1];
    assert xs == init + [last];
    SameKeyAppend(init, [last], y, before);
    assert [last][1..] == [];
  }

  /** No element occurs twice. */
  ghost predicate Distinct<T>(xs: seq<T>)
  {
    forall i, j :: 0 <= i < j < |xs| ==> xs[i] != xs[j]
  }

  /** The items of `xs` in order, each first occurrence only. */
  function Dedup<T(==,!new)>(xs: seq<T>): (r: seq<T>)
    ensures (set x | x in r) == (set x | x in xs)
    ensures forall i, j :: 0 <= i < j < |r| ==> r[i] != r[j]
  {
    if |xs| == 0 then []
    else
      var rest := Dedup(xs[..|xs| - 1]);
      var last := xs[|xs| - 1];
      assert forall x :: x in xs <==> x in xs[..|xs| - 1] || x == last;
      assert (set x | x in rest + [last]) == (set x | x in rest) + {last};
      if last in rest then rest else rest + [last]
  }

  /** Inserting a new element into a list without repeats keeps it without repeats. */
  lemma {:induction false} InsertDistinct<T>(x: T, xs: seq<T>, before: (T, T) -> bool)
    requires Distinct(xs) && x !in xs
    ensures Distinct(Insert(x, xs, before))
  {
    if |xs| > 0 && !before(x, xs[0]) {
      var rest := Insert(x, xs[1..], before);
      InsertDistinct(x, xs[1..], before);
      assert xs[0] !in xs[1..] by {
        forall k | 0 <= k < |xs| - 1 ensures xs[1..][k] != xs[0] {
          assert xs[1..][k] == xs[k + 1];
        }
      }
      assert xs[0] != x by {
        assert xs[0] in xs;
      }
      assert xs[0] !in multiset(rest) by {
        assert multiset(rest) == multiset(xs[1..]) + multiset{x};
      }
    }
  }

  /** Sorting a list without repeats gives a list without repeats. */
  lemma {:induction false} SortByDistinct<T>(xs: seq<T>, before: (T, T) -> bool)
    requires Distinct(xs)
    ensures Distinct(SortBy(xs, before))
  {
    if |xs| > 0 {
      var init, last := xs[..|xs| - 1], xs[|xs| - 1];
      SortByDistinct(init, before);
      assert last !in multiset(init);
      InsertDistinct(last, SortBy(init, before), before);
    }
  }
}
