/**
 * `sort.Strings` on a slice, modelled as an in-place sort of an array, and
 * the reference order of a finite set of strings that the driver's sorted
 * lists are proved equal to.
 */
module Sorting {
  import opened Strings

  /** Every finite non-empty set of strings has a least element. */
  lemma {:induction false} LeastExists(s: set<string>)
    requires s != {}
    ensures exists m :: m in s && forall y :: y in s ==> LessEq(m, y)
    decreases |s|
  {
    var x :| x in s;
    var rest := s - {x};
    if rest == {} {
      forall y | y in s ensures LessEq(x, y) {
        assert y !in rest;
      }
    } else {
      LeastExists(rest);
      var m :| m in rest && forall y :: y in rest ==> LessEq(m, y);
      var w := LeastOfAdded(s, x, rest, m);
    }
  }

  /** Adding `x` to a set whose least element is `m` gives a set whose least element is `x` or `m`. */
  lemma LeastOfAdded(s: set<string>, x: string, rest: set<string>, m: string) returns (w: string)
    requires x in s && rest == s - {x}
    requires m in rest && forall y :: y in rest ==> LessEq(m, y)
    ensures w in s && forall y :: y in s ==> LessEq(w, y)
  {
    LessTotal(x, m);
    if Less(x, m) {
      w := x;
      forall y | y in s ensures LessEq(x, y) {
        if y != x {
          assert y in rest;
          LessEqTransitive(x, m, y);
        }
      }
    } else {
      w := m;
      forall y | y in s ensures LessEq(m, y) {
        if y != x {
          assert y in rest;
        }
      }
    }
  }

  /** The least element of a non-empty set. */
  ghost function Least(s: set<string>): (m: string)
    requires s != {}
    ensures m in s && forall y :: y in s ==> LessEq(m, y)
  {
    LeastExists(s);
    var m :| m in s && forall y :: y in s ==> LessEq(m, y);
    m
  }

  /** The elements of `s` listed once each in ascending order (their properties: `SortedSetIsSorted`). */
  ghost function SortedSet(s: set<string>): seq<string>
    decreases |s|
  {
    if s == {} then [] else [Least(s)] + SortedSet(s - {Least(s)})
  }

  /** `SortedSet(s)` is strictly ascending and lists exactly the elements of `s`. */
  lemma {:induction false} SortedSetIsSorted(s: set<string>)
    ensures StrictlySorted(SortedSet(s))
    ensures Elems(SortedSet(s)) == s
    ensures |SortedSet(s)| == |s|
    decreases |s|
  {
    if s != {} {
      var m := Least(s);
      var tail := SortedSet(s - {m});
      SortedSetIsSorted(s - {m});
      assert forall y :: y in tail ==> y in Elems(tail);
      PrependLeast(m, tail);
    }
  }

  lemma PrependLeast(m: string, tail: seq<string>)
    requires StrictlySorted(tail)
    requires forall y :: y in tail ==> LessEq(m, y) && y != m
    ensures StrictlySorted([m] + tail)
    ensures Elems([m] + tail) == {m} + Elems(tail)
  {
    var r := [m] + tail;
    forall i, j | 0 <= i < j < |r| ensures Less(r[i], r[j]) {
      if i == 0 {
        assert r[j] == tail[j - 1] && tail[j - 1] in tail;
      } else {
        assert r[i] == tail[i - 1] && r[j] == tail[j - 1];
      }
    }
  }

  /** Any strictly sorted listing of `s` is the one `SortedSet` gives. */
  lemma SortedSetUnique(s: set<string>, r: seq<string>)
    requires StrictlySorted(r) && Elems(r) == s
    ensures r == SortedSet(s)
  {
    SortedSetIsSorted(s);
    StrictlySortedUnique(r, SortedSet(s));
  }

  /**
   * A sorted permutation of a duplicate-free sequence is the ascending
   * listing of its elements.
   */
  lemma SortedPermutationOfDistinct(input: seq<string>, output: seq<string>)
    requires Distinct(input)
    requires Sorted(output) && multiset(output) == multiset(input)
    ensures output == SortedSet(Elems(input))
  {
    var ref := SortedSet(Elems(input));
    SortedSetIsSorted(Elems(input));
    StrictlySortedIsSortedAndDistinct(ref);
    DistinctMultiset(input);
    DistinctMultiset(ref);
    SortedUnique(output, ref);
  }

  /**
   * `sort.Strings` on a slice whose entries are distinct: copies them into an
   * array and sorts it in place.
   */
  method SortDistinct(s: seq<string>) returns (r: seq<string>)
    requires Distinct(s)
    ensures StrictlySorted(r) && Elems(r) == Elems(s)
    ensures r == SortedSet(Elems(s))
  {
    var a := new string[|s|](k requires 0 <= k < |s| => s[k]);
    assert a[..] == s;
    SortStrings(a);
    r := a[..];
    SortedPermutationOfDistinct(s, r);
    SortedSetIsSorted(Elems(s));
  }

  /** Insertion sort in place, by swapping neighbours; `sort.Strings`. */
  method SortStrings(a: array<string>)
    modifies a
    ensures Sorted(a[..])
    ensures multiset(a[..]) == old(multiset(a[..]))
  {
    var i := 0;
    while i < a.Length
      invariant 0 <= i <= a.Length
      invariant AdjacentSorted(a[..i])
      invariant multiset(a[..]) == old(multiset(a[..]))
    {
      SinkLast(a, i);
      i := i + 1;
    }
    assert a[..a.Length] == a[..];
    AdjacentSortedIsSorted(a[..]);
  }

  /** Moves `a[i]` left past every larger neighbour, extending the sorted prefix by one. */
  method SinkLast(a: array<string>, i: nat)
    requires i < a.Length && AdjacentSorted(a[..i])
    modifies a
    ensures AdjacentSorted(a[..i + 1])
    ensures multiset(a[..]) == old(multiset(a[..]))
  {
    var j := i;
    while j > 0 && Less(a[j], a[j - 1])
      invariant 0 <= j <= i
      invariant forall k :: 0 < k < j ==> LessEq(a[k - 1], a[k])
      invariant forall k :: j < k <= i ==> LessEq(a[k - 1], a[k])
      invariant 0 < j < i ==> LessEq(a[j - 1], a[j + 1])
      invariant multiset(a[..]) == old(multiset(a[..]))
    {
      SwapWithPrevious(a, j);
      j := j - 1;
    }
    if j > 0 {
      LessTotal(a[j], a[j - 1]);
    }
  }

  method SwapWithPrevious(a: array<string>, j: nat)
    requires 0 < j < a.Length
    modifies a
    ensures a[..] == old(a[..])[j - 1 := old(a[j])][j := old(a[j - 1])]
    ensures multiset(a[..]) == old(multiset(a[..]))
  {
    a[j - 1], a[j] := a[j], a[j - 1];
  }

  ghost predicate AdjacentSorted(s: seq<string>)
  {
    forall k :: 0 < k < |s| ==> LessEq(s[k - 1], s[k])
  }

  lemma {:induction false} AdjacentSortedIsSorted(s: seq<string>)
    requires AdjacentSorted(s)
    ensures Sorted(s)
  {
    if |s| > 1 {
      var t := s[..|s| - 1];
      assert AdjacentSorted(t);
      AdjacentSortedIsSorted(t);
      forall i | 0 <= i < |s| - 1 ensures LessEq(s[i], s[|s| - 1]) {
        assert s[i] == t[i] && s[|s| - 2] == t[|s| - 2];
        LessEqTransitive(s[i], s[|s| - 2], s[|s| - 1]);
      }
    }
  }
}
