/** The median of a list, as the statistics library computes it: by sorting. */
module Median {
  function Insert(x: int, xs: seq<int>): (r: seq<int>)
    ensures |r| == |xs| + 1
  {
    if xs == [] then [x]
    else if x <= xs[0] then [x] + xs
    else [xs[0]] + Insert(x, xs[1..])
  }

  function Sorted(xs: seq<int>): (r: seq<int>)
    ensures |r| == |xs|
  {
    if xs == [] then [] else Insert(xs[0], Sorted(xs[1..]))
  }

  /** The middle of the sorted list, or the mean of its two middles. */
  function Of(xs: seq<int>): real
    requires xs != []
  {
    var s, n := Sorted(xs), |xs|;
    if n % 2 == 1 then s[n / 2] as real else (s[n / 2 - 1] + s[n / 2]) as real / 2.0
  }

  ghost predicate Ordered(xs: seq<int>) {
    forall i, j :: 0 <= i <= j < |xs| ==> xs[i] <= xs[j]
  }

  lemma {:induction false} InsertKeeps(x: int, xs: seq<int>)
    ensures multiset(Insert(x, xs)) == multiset(xs) + multiset{x}
  {
    if xs != [] {
      assert xs == [xs[0]] + xs[1..];
      if x > xs[0] {
        InsertKeeps(x, xs[1..]);
      }
    }
  }

  ghost predicate Above(lo: int, xs: seq<int>) {
    forall i :: 0 <= i < |xs| ==> lo <= xs[i]
  }

  lemma {:induction false} PrependOrders(x: int, xs: seq<int>)
    requires Above(x, xs) && Ordered(xs)
    ensures Ordered([x] + xs)
  {
  }

  lemma {:induction false} InsertAbove(lo: int, x: int, xs: seq<int>)
    requires Above(lo, xs) && lo <= x
    ensures Above(lo, Insert(x, xs))
  {
    if xs != [] && x > xs[0] {
      InsertAbove(lo, x, xs[1..]);
    }
  }

  lemma {:induction false} InsertOrders(x: int, xs: seq<int>)
    requires Ordered(xs)
    ensures Ordered(Insert(x, xs))
  {
    if xs != [] && x > xs[0] {
      assert Ordered(xs[1..]) && Above(xs[0], xs[1..]);
      InsertOrders(x, xs[1..]);
      InsertAbove(xs[0], x, xs[1..]);
      PrependOrders(xs[0], Insert(x, xs[1..]));
    } else {
      PrependOrders(x, xs);
    }
  }

  lemma {:induction false} SortedIsExact(xs: seq<int>)
    ensures Ordered(Sorted(xs)) && multiset(Sorted(xs)) == multiset(xs)
  {
    if xs != [] {
      SortedIsExact(xs[1..]);
      InsertKeeps(xs[0], Sorted(xs[1..]));
      InsertOrders(xs[0], Sorted(xs[1..]));
      assert xs == [xs[0]] + xs[1..];
    }
  }

  /** The median splits the ordered list: half of it, rounded up, is at most the median, half at
      least, and the median is the mean of the two middles, which are one entry of an odd list. */
  lemma {:induction false} MedianSplits(xs: seq<int>) returns (s: seq<int>)
    requires xs != []
    ensures Ordered(s) && multiset(s) == multiset(xs) && |s| == |xs|
    ensures forall i :: 0 <= i < (|s| + 1) / 2 ==> s[i] as real <= Of(xs)
    ensures forall i :: |s| / 2 <= i < |s| ==> Of(xs) <= s[i] as real
    ensures 2.0 * Of(xs) == (s[(|s| - 1) / 2] + s[|s| / 2]) as real
  {
    SortedIsExact(xs);
    s := Sorted(xs);
    var n := |xs|;
    assert forall i :: 0 <= i < (n + 1) / 2 ==> s[i] <= s[(n - 1) / 2] <= s[n / 2];
    assert forall i :: n / 2 <= i < n ==> s[(n - 1) / 2] <= s[n / 2] <= s[i];
  }

  /** The median lies between any lower and upper bound of the list. */
  lemma {:induction false} MedianIsBetween(xs: seq<int>, lo: int, hi: int)
    requires xs != [] && forall i :: 0 <= i < |xs| ==> lo <= xs[i] <= hi
    ensures lo as real <= Of(xs) <= hi as real
  {
    SortedIsExact(xs);
    forall i | 0 <= i < |xs| ensures lo <= Sorted(xs)[i] <= hi {
      assert Sorted(xs)[i] in multiset(Sorted(xs));
      assert Sorted(xs)[i] in xs;
    }
  }
}
