/** Sorting by a comparator, and when the result does not depend on the algorithm. */
module Sorting {

  /** Never both ways round, and carried over; two elements may tie. */
  ghost predicate StrictWeakOrder<T(!new)>(before: (T, T) -> bool) {
    && (forall a, b :: before(a, b) ==> !before(b, a))
    && (forall a, b, c :: before(a, b) && before(b, c) ==> before(a, c))
    && (forall a, b, c :: !before(a, b) && !before(b, c) ==> !before(a, c))
  }

  predicate Sorted<T>(s: seq<T>, before: (T, T) -> bool) {
    forall i, j :: 0 <= i < j < |s| ==> !before(s[j], s[i])
  }

  predicate SortedPermutation<T(==)>(out: seq<T>, s: seq<T>, before: (T, T) -> bool) {
    Sorted(out, before) && multiset(out) == multiset(s)
  }

  /** e put in front of the first element it comes before. */
  function Placed<T>(s: seq<T>, e: T, before: (T, T) -> bool): seq<T> {
    if |s| == 0 then [e]
    else if before(e, s[0]) then [e] + s
    else [s[0]] + Placed(s[1..], e, before)
  }

  /** A sort of s. */
  function SortOf<T>(s: seq<T>, before: (T, T) -> bool): seq<T> {
    if |s| == 0 then [] else Placed(SortOf(s[..|s| - 1], before), s[|s| - 1], before)
  }

  lemma HeadThenSorted<T>(head: T, rest: seq<T>, before: (T, T) -> bool)
    requires Sorted(rest, before) && forall k :: 0 <= k < |rest| ==> !before(rest[k], head)
    ensures Sorted([head] + rest, before)
  {
  }

  lemma NoneBeforeTheFirst<T(!new)>(s: seq<T>, e: T, before: (T, T) -> bool)
    requires StrictWeakOrder(before) && Sorted(s, before) && |s| > 0 && before(e, s[0])
    ensures forall k :: 0 <= k < |s| ==> !before(s[k], e)
  {
    forall k | 0 <= k < |s|
      ensures !before(s[k], e)
    {
      if k > 0 { assert !before(s[k], s[0]); }
    }
  }

  lemma {:induction false} PlacedKeepsElements<T>(s: seq<T>, e: T, before: (T, T) -> bool)
    ensures multiset(Placed(s, e, before)) == multiset(s) + multiset{e}
  {
    if |s| > 0 {
      PlacedKeepsElements(s[1..], e, before);
      assert s == [s[0]] + s[1..];
    }
  }

  lemma {:induction false} PlacedSorted<T(!new)>(s: seq<T>, e: T, before: (T, T) -> bool)
    requires StrictWeakOrder(before) && Sorted(s, before)
    ensures Sorted(Placed(s, e, before), before)
  {
    if |s| > 0 {
      if before(e, s[0]) {
        NoneBeforeTheFirst(s, e, before);
        HeadThenSorted(e, s, before);
      } else {
        var rest := Placed(s[1..], e, before);
        PlacedSorted(s[1..], e, before);
        PlacedKeepsElements(s[1..], e, before);
        forall k | 0 <= k < |rest|
          ensures !before(rest[k], s[0])
        {
          assert rest[k] in multiset(rest);
          assert rest[k] in s[1..] || rest[k] == e;
        }
        HeadThenSorted(s[0], rest, before);
      }
    }
  }

  lemma {:induction false} SortOfSorts<T(!new)>(s: seq<T>, before: (T, T) -> bool)
    requires StrictWeakOrder(before)
    ensures SortedPermutation(SortOf(s, before), s, before)
  {
    if |s| > 0 {
      SortOfSorts(s[..|s| - 1], before);
      PlacedSorted(SortOf(s[..|s| - 1], before), s[|s| - 1], before);
      PlacedKeepsElements(SortOf(s[..|s| - 1], before), s[|s| - 1], before);
      assert s == s[..|s| - 1] + [s[|s| - 1]];
    }
  }

  /** Sorts a slice, each element in turn moving left past those it comes before. */
  method InsertionSort<T(!new,==)>(s: seq<T>, before: (T, T) -> bool) returns (out: seq<T>)
    requires StrictWeakOrder(before)
    ensures SortedPermutation(out, s, before)
  {
    out := [];
    for i := 0 to |s|
      invariant SortedPermutation(out, s[..i], before)
    {
      var at := |out|;
      while at > 0 && before(s[i], out[at - 1])
        invariant 0 <= at <= |out|
        invariant forall k :: at <= k < |out| ==> before(s[i], out[k])
      {
        at := at - 1;
      }
      PassedElements(out, at, s[i], before);
      InsertKeepsSorted(out, at, s[i], before);
      assert s[..i + 1] == s[..i] + [s[i]];
      out := out[..at] + [s[i]] + out[at..];
    }
    assert s[..|s|] == s;
  }

  lemma PassedElements<T(!new)>(out: seq<T>, at: nat, e: T, before: (T, T) -> bool)
    requires StrictWeakOrder(before) && Sorted(out, before) && at <= |out|
    requires at > 0 ==> !before(e, out[at - 1])
    ensures forall k :: 0 <= k < at ==> !before(e, out[k])
  {
    forall k | 0 <= k < at
      ensures !before(e, out[k])
    {
      if k < at - 1 { assert !before(out[at - 1], out[k]); }
    }
  }

  lemma InsertKeepsSorted<T(!new)>(out: seq<T>, at: nat, e: T, before: (T, T) -> bool)
    requires StrictWeakOrder(before) && Sorted(out, before) && at <= |out|
    requires forall k :: 0 <= k < at ==> !before(e, out[k])
    requires forall k :: at <= k < |out| ==> before(e, out[k])
    ensures SortedPermutation(out[..at] + [e] + out[at..], out + [e], before)
  {
    var after := out[..at] + [e] + out[at..];
    forall i, j | 0 <= i < j < |after|
      ensures !before(after[j], after[i])
    {
      var a := if i < at then after[i] == out[i] else i == at || after[i] == out[i - 1];
      assert a;
      assert if j < at then after[j] == out[j] else j == at || after[j] == out[j - 1];
    }
    assert out == out[..at] + out[at..];
  }

  /** Two different elements that neither precedes the other. */
  predicate Tie<T(==)>(a: T, b: T, before: (T, T) -> bool) {
    a != b && !before(a, b) && !before(b, a)
  }

  ghost predicate NoTies<T(!new)>(s: seq<T>, before: (T, T) -> bool) {
    forall a, b :: a in s && b in s ==> !Tie(a, b, before)
  }

  /** Without ties every sort of the same elements, in any order, gives one answer. */
  lemma {:induction false} SortIsUnique<T(!new)>(x: seq<T>, y: seq<T>, before: (T, T) -> bool)
    requires multiset(x) == multiset(y) && Sorted(x, before) && Sorted(y, before) && NoTies(x, before)
    ensures x == y
  {
    assert |multiset(x)| == |x| && |multiset(y)| == |y|;
    if |x| > 0 {
      HeadsAgree(x, y, before);
      assert x == [x[0]] + x[1..] && y == [y[0]] + y[1..];
      assert multiset(x[1..]) == multiset(x) - multiset{x[0]};
      assert multiset(y[1..]) == multiset(y) - multiset{y[0]};
      forall e | e in x[1..]
        ensures e in x
      {
      }
      SortIsUnique(x[1..], y[1..], before);
    }
  }

  lemma HeadsAgree<T(!new)>(x: seq<T>, y: seq<T>, before: (T, T) -> bool)
    requires |x| > 0 && |y| > 0
    requires multiset(x) == multiset(y) && Sorted(x, before) && Sorted(y, before) && NoTies(x, before)
    ensures x[0] == y[0]
  {
    assert y[0] in multiset(y) && x[0] in multiset(x);
    HeadFirst(x, before, y[0]);
    HeadFirst(y, before, x[0]);
    assert !Tie(x[0], y[0], before);
  }

  lemma HeadFirst<T(!new)>(s: seq<T>, before: (T, T) -> bool, e: T)
    requires Sorted(s, before) && e in s
    ensures e == s[0] || !before(e, s[0])
  {
    var i :| 0 <= i < |s| && s[i] == e;
    if i > 0 { assert !before(s[i], s[0]); }
  }

  lemma SwappingTiesKeepsSorted<T(!new)>(s: seq<T>, i: nat, j: nat, before: (T, T) -> bool)
    requires StrictWeakOrder(before) && Sorted(s, before) && i < |s| && j < |s| && Tie(s[i], s[j], before)
    ensures SortedPermutation(s[i := s[j]][j := s[i]], s, before)
  {
    var t := s[i := s[j]][j := s[i]];
    forall k
      ensures 0 <= k < |s| ==> !before(t[k], s[k]) && !before(s[k], t[k])
    {
    }
    forall k, l | 0 <= k < l < |t|
      ensures !before(t[l], t[k])
    {
      assert !before(s[l], s[k]);
      assert !before(t[l], s[k]);
    }
  }

  lemma OneSortWithoutTies<T(!new)>(s: seq<T>, x: seq<T>, y: seq<T>, before: (T, T) -> bool)
    requires NoTies(s, before) && multiset(x) == multiset(s)
    requires Sorted(x, before) && Sorted(y, before) && multiset(y) == multiset(s)
    ensures x == y
  {
    forall a, b | a in x && b in x
      ensures !Tie(a, b, before)
    {
      assert a in multiset(x) && b in multiset(x);
    }
    SortIsUnique(x, y, before);
  }

  lemma TwoSortsWithTies<T(!new)>(s: seq<T>, before: (T, T) -> bool) returns (x: seq<T>, y: seq<T>)
    requires StrictWeakOrder(before) && !NoTies(s, before)
    ensures SortedPermutation(x, s, before) && SortedPermutation(y, s, before) && x != y
  {
    var a, b :| a in s && b in s && Tie(a, b, before);
    x := SortOf(s, before);
    SortOfSorts(s, before);
    assert a in multiset(x) && b in multiset(x);
    var i :| 0 <= i < |x| && x[i] == a;
    var j :| 0 <= j < |x| && x[j] == b;
    SwappingTiesKeepsSorted(x, i, j, before);
    y := x[i := x[j]][j := x[i]];
    assert y[j] == a != x[j];
  }

  /** The elements for which p holds, in order. */
  function Keep<T(!new)>(s: seq<T>, p: T -> bool): (r: seq<T>)
    ensures forall e :: e in r <==> e in s && p(e)
  {
    if |s| == 0 then [] else
    var init, last := s[..|s| - 1], s[|s| - 1];
    assert s == init + [last];
    if p(last) then Keep(init, p) + [last] else Keep(init, p)
  }

  lemma {:induction false} KeepSorted<T(!new)>(s: seq<T>, p: T -> bool, before: (T, T) -> bool)
    requires Sorted(s, before)
    ensures Sorted(Keep(s, p), before)
  {
    if |s| > 0 {
      var init, last := s[..|s| - 1], s[|s| - 1];
      KeepSorted(init, p, before);
      var kept := Keep(init, p);
      forall k | 0 <= k < |kept|
        ensures !before(last, kept[k])
      {
        assert kept[k] in init;
      }
    }
  }

  /** How often an element is kept: as often as it was there, or never. */
  lemma {:induction false} KeepCount<T(!new)>(s: seq<T>, p: T -> bool, e: T)
    ensures multiset(Keep(s, p))[e] == if p(e) then multiset(s)[e] else 0
  {
    if |s| > 0 {
      KeepCount(s[..|s| - 1], p, e);
      assert s == s[..|s| - 1] + [s[|s| - 1]];
    }
  }

  /** Dropping elements from a sort leaves a sort of what was not dropped, ties or not. */
  lemma KeepCommutesWithSort<T(!new)>(s: seq<T>, sorted: seq<T>, p: T -> bool, before: (T, T) -> bool)
    requires SortedPermutation(sorted, s, before)
    ensures SortedPermutation(Keep(sorted, p), Keep(s, p), before)
  {
    KeepSorted(sorted, p, before);
    KeepPermuted(sorted, s, p);
  }

  lemma KeepPermuted<T(!new)>(x: seq<T>, y: seq<T>, p: T -> bool)
    requires multiset(x) == multiset(y)
    ensures multiset(Keep(x, p)) == multiset(Keep(y, p))
  {
    forall e
      ensures multiset(Keep(x, p))[e] == multiset(Keep(y, p))[e]
    {
      KeepCount(x, p, e);
      KeepCount(y, p, e);
    }
  }

  /** What is left after dropping is determined exactly when what is left has no ties. */
  lemma KeptSortDeterminedExactlyWhen<T(!new)>(s: seq<T>, sorted: seq<T>, p: T -> bool, before: (T, T) -> bool)
    requires StrictWeakOrder(before) && SortedPermutation(sorted, s, before)
    ensures (forall kept :: SortedPermutation(kept, Keep(s, p), before) ==> kept == Keep(sorted, p))
       <==> NoTies(Keep(s, p), before)
  {
    KeepCommutesWithSort(s, sorted, p, before);
    if NoTies(Keep(s, p), before) {
      forall kept | SortedPermutation(kept, Keep(s, p), before)
        ensures kept == Keep(sorted, p)
      {
        OneSortWithoutTies(Keep(s, p), kept, Keep(sorted, p), before);
      }
    } else {
      var x, y := TwoSortsWithTies(Keep(s, p), before);
      assert x != Keep(sorted, p) || y != Keep(sorted, p);
    }
  }

  /** The same element taken out of two permutations leaves permutations. */
  lemma TakenOut<T>(xs: seq<T>, x: T, ys: seq<T>, others: seq<T>)
    requires multiset(others + [x]) == multiset(xs + [x] + ys)
    ensures multiset(others) == multiset(xs + ys)
  {
    assert multiset(others) == multiset(others + [x]) - multiset{x};
    assert multiset(xs + ys) == multiset(xs + [x] + ys) - multiset{x};
  }
}
