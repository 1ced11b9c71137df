/** `np.sort` on a one-dimensional float array, and the order statistics that
    the historical-simulation estimator reads out of its result. */
module Sorting {

  ghost predicate Ascending(s: seq<real>)
  {
    forall i, j :: 0 <= i < j < |s| ==> s[i] <= s[j]
  }

  /** Inserts `x` into an ascending sequence, in front of the first element
      that is not smaller than it. */
  function Insert(x: real, s: seq<real>): (r: seq<real>)
    requires Ascending(s)
    ensures Ascending(r)
    ensures multiset(r) == multiset(s) + multiset{x}
  {
    if s == [] || x <= s[0] then
      AscendingCons(x, s);
      [x] + s
    else
      assert s == [s[0]] + s[1..];
      var rest := Insert(x, s[1..]);
      LowerBoundKept(s[0], x, s[1..], rest);
      AscendingCons(s[0], rest);
      [s[0]] + rest
  }

  /** Prefixing an ascending sequence with an element no larger than its
      head keeps it ascending. */
  lemma AscendingCons(h: real, t: seq<real>)
    requires Ascending(t) && (t != [] ==> h <= t[0])
    ensures Ascending([h] + t)
  {
  }

  /** A lower bound of `t` and of `x` bounds every element of a sequence with
      the elements of `t` and `x`. */
  lemma LowerBoundKept(h: real, x: real, t: seq<real>, r: seq<real>)
    requires h <= x && multiset(r) == multiset(t) + multiset{x}
    requires Ascending(t) && (t != [] ==> h <= t[0])
    ensures r != [] ==> h <= r[0]
  {
    if r != [] {
      assert r[0] in multiset(r);
      if r[0] != x {
        assert r[0] in multiset(t);
        var k :| 0 <= k < |t| && t[k] == r[0];
      }
    }
  }

  /** `np.sort(s)`: a copy of `s` in ascending order. */
  function Sort(s: seq<real>): (r: seq<real>)
    ensures Ascending(r)
    ensures multiset(r) == multiset(s)
    ensures |r| == |s|
  {
    if s == [] then []
    else
      assert s == [s[0]] + s[1..];
      Insert(s[0], Sort(s[1..]))
  }

  /** `y < x` when `strict`, `y <= x` otherwise. */
  predicate Below(y: real, x: real, strict: bool)
  {
    if strict then y < x else y <= x
  }

  /** How many entries of `s` lie (strictly, or not) below `x`. */
  function CountBelow(s: seq<real>, x: real, strict: bool): (n: nat)
    ensures n <= |s|
  {
    if s == [] then 0
    else (if Below(s[0], x, strict) then 1 else 0) + CountBelow(s[1..], x, strict)
  }

  /** `x` is the `k`-th smallest entry of `w` (counting from 0): it occurs in
      `w`, at most `k` entries are strictly smaller than it (so at least
      `|w| - k` entries are at least as large), and more than `k` entries are
      at most it. */
  ghost predicate IsOrderStatistic(w: seq<real>, k: nat, x: real)
  {
    x in w && CountBelow(w, x, true) <= k < CountBelow(w, x, false)
  }

  lemma {:induction false} CountBelowConcat(a: seq<real>, b: seq<real>, x: real, strict: bool)
    ensures CountBelow(a + b, x, strict) == CountBelow(a, x, strict) + CountBelow(b, x, strict)
  {
    if a != [] {
      assert (a + b)[1..] == a[1..] + b;
      CountBelowConcat(a[1..], b, x, strict);
    } else {
      assert a + b == b;
    }
  }

  /** No entry lies below `x` exactly when the count is zero. */
  lemma {:induction false} CountBelowZero(s: seq<real>, x: real, strict: bool)
    ensures CountBelow(s, x, strict) == 0 <==> forall i :: 0 <= i < |s| ==> !Below(s[i], x, strict)
  {
    if s != [] {
      CountBelowZero(s[1..], x, strict);
      assert forall i :: 1 <= i < |s| ==> s[i] == s[1..][i - 1];
    }
  }

  /** Every entry lies below `x` exactly when the count is the length. */
  lemma {:induction false} CountBelowAll(s: seq<real>, x: real, strict: bool)
    ensures CountBelow(s, x, strict) == |s| <==> forall i :: 0 <= i < |s| ==> Below(s[i], x, strict)
  {
    if s != [] {
      CountBelowAll(s[1..], x, strict);
      assert forall i :: 1 <= i < |s| ==> s[i] == s[1..][i - 1];
    }
  }

  /** Taking out the entry at `j` takes exactly one copy of it out of the multiset. */
  lemma MultisetRemove(b: seq<real>, j: nat)
    requires j < |b|
    ensures multiset(b[..j] + b[j + 1..]) == multiset(b) - multiset{b[j]}
  {
    assert b == b[..j] + [b[j]] + b[j + 1..];
  }

  /** Taking out the entry at `j` lowers a count by what that entry contributed. */
  lemma CountBelowRemove(b: seq<real>, j: nat, x: real, strict: bool)
    requires j < |b|
    ensures CountBelow(b, x, strict)
            == (if Below(b[j], x, strict) then 1 else 0) + CountBelow(b[..j] + b[j + 1..], x, strict)
  {
    assert b == b[..j] + ([b[j]] + b[j + 1..]);
    CountBelowConcat(b[..j], [b[j]] + b[j + 1..], x, strict);
    CountBelowConcat(b[..j], b[j + 1..], x, strict);
    assert ([b[j]] + b[j + 1..])[1..] == b[j + 1..];
  }

  /** The counts depend only on the multiset of entries, so sorting keeps them. */
  lemma {:induction false} CountBelowPermutation(a: seq<real>, b: seq<real>, x: real, strict: bool)
    requires multiset(a) == multiset(b)
    ensures CountBelow(a, x, strict) == CountBelow(b, x, strict)
  {
    if a == [] {
      assert |b| == |multiset(b)| == 0;
    } else {
      var y := a[0];
      assert y in multiset(b);
      var j :| 0 <= j < |b| && b[j] == y;
      var rest := b[..j] + b[j + 1..];
      assert a == [y] + a[1..];
      MultisetRemove(b, j);
      assert multiset(a[1..]) == multiset(rest);
      CountBelowPermutation(a[1..], rest, x, strict);
      CountBelowRemove(b, j, x, strict);
    }
  }

  /** A count over a larger bound is at least as large: when `x < y`, all
      entries at most `x` are strictly below `y`. */
  lemma {:induction false} CountBelowMonotone(s: seq<real>, x: real, y: real)
    requires x < y
    ensures CountBelow(s, x, false) <= CountBelow(s, y, true)
  {
    if s != [] {
      CountBelowMonotone(s[1..], x, y);
    }
  }

  /** In an ascending sequence, entry `k` is the `k`-th order statistic. */
  lemma AscendingOrderStatistic(s: seq<real>, k: nat)
    requires Ascending(s) && k < |s|
    ensures IsOrderStatistic(s, k, s[k])
  {
    AscendingStrictlyBelow(s, k);
    PrefixAtMost(s, k);
  }

  /** Nothing from position `k` on lies strictly below `s[k]`. */
  lemma AscendingStrictlyBelow(s: seq<real>, k: nat)
    requires Ascending(s) && k < |s|
    ensures CountBelow(s, s[k], true) <= k
  {
    var x, tail := s[k], s[k..];
    assert s == s[..k] + tail;
    CountBelowConcat(s[..k], tail, x, true);
    forall i | 0 <= i < |tail| ensures !Below(tail[i], x, true) {
      assert tail[i] == s[k + i];
    }
    CountBelowZero(tail, x, true);
  }

  /** When every entry up to position `k` is at most `s[k]`, more than `k`
      entries are at most it. */
  lemma PrefixAtMost(s: seq<real>, k: nat)
    requires k < |s| && forall i :: 0 <= i < k ==> s[i] <= s[k]
    ensures CountBelow(s, s[k], false) > k
  {
    var x, head := s[k], s[..k + 1];
    assert s == head + s[k + 1..];
    CountBelowConcat(head, s[k + 1..], x, false);
    forall i | 0 <= i < |head| ensures Below(head[i], x, false) {
      assert head[i] == s[i];
    }
    CountBelowAll(head, x, false);
  }

  /** Reading position `k` of `np.sort(w)` gives the `k`-th order statistic of `w`. */
  lemma SortedPicksOrderStatistic(w: seq<real>, k: nat)
    requires k < |w|
    ensures IsOrderStatistic(w, k, Sort(w)[k])
  {
    var s := Sort(w);
    AscendingOrderStatistic(s, k);
    CountBelowPermutation(s, w, s[k], true);
    CountBelowPermutation(s, w, s[k], false);
    assert s[k] in multiset(s);
  }

  /** The order statistic is determined by `w` and `k` alone. */
  lemma OrderStatisticUnique(w: seq<real>, k: nat, x: real, y: real)
    requires IsOrderStatistic(w, k, x) && IsOrderStatistic(w, k, y)
    ensures x == y
  {
    if x < y {
      CountBelowMonotone(w, x, y);
    } else if y < x {
      CountBelowMonotone(w, y, x);
    }
  }

  /** The 0-th order statistic is the minimum. */
  lemma OrderStatisticZeroIsMinimum(w: seq<real>, x: real)
    requires IsOrderStatistic(w, 0, x)
    ensures forall i :: 0 <= i < |w| ==> x <= w[i]
  {
    CountBelowZero(w, x, true);
  }
}
