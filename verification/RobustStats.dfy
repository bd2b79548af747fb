/**
 Median, median absolute deviation and the z-score built on them
 (internal/detect/anomaly.go), over exact reals.
 */
module RobustStats {
  import opened Prelude

  ghost predicate Ascending(s: seq<real>) {
    forall i, j :: 0 <= i < j < |s| ==> s[i] <= s[j]
  }

  function InsertValue(x: real, s: seq<real>): seq<real> {
    if s == [] || x <= s[0] then [x] + s else [s[0]] + InsertValue(x, s[1..])
  }

  /** sort.Float64s. */
  function Sorted(vals: seq<real>): seq<real> {
    if vals == [] then [] else InsertValue(vals[0], Sorted(vals[1..]))
  }

  lemma {:induction false} InsertAscends(x: real, s: seq<real>)
    requires Ascending(s)
    ensures Ascending(InsertValue(x, s)) && |InsertValue(x, s)| == |s| + 1
    ensures forall i :: 0 <= i <= |s| ==> InsertValue(x, s)[i] == x || InsertValue(x, s)[i] in s
  {
    if s != [] && x > s[0] {
      InsertAscends(x, s[1..]);
    }
  }

  lemma {:induction false} InsertKeeps(x: real, s: seq<real>)
    ensures multiset(InsertValue(x, s)) == multiset{x} + multiset(s)
  {
    if s != [] && x > s[0] {
      InsertKeeps(x, s[1..]);
      assert s == [s[0]] + s[1..];
    }
  }

  lemma {:induction false} SortedSorts(vals: seq<real>)
    ensures Ascending(Sorted(vals)) && multiset(Sorted(vals)) == multiset(vals) && |Sorted(vals)| == |vals|
  {
    if vals != [] {
      SortedSorts(vals[1..]);
      InsertAscends(vals[0], Sorted(vals[1..]));
      InsertKeeps(vals[0], Sorted(vals[1..]));
      assert vals == [vals[0]] + vals[1..];
    }
  }

  /** medianFloat; its callers pass at least one value. */
  function Median(vals: seq<real>): real
    requires vals != []
  {
    SortedSorts(vals);
    var sorted, n := Sorted(vals), |vals|;
    if n % 2 == 1 then sorted[n / 2] else (sorted[n / 2 - 1] + sorted[n / 2]) / 2.0
  }

  const MAD_SCALE := 1.4826

  function Deviations(vals: seq<real>, center: real): (r: seq<real>)
    ensures |r| == |vals|
  {
    if vals == [] then [] else [Abs(vals[0] - center)] + Deviations(vals[1..], center)
  }

  /** medianAndMAD. */
  function MAD(vals: seq<real>): real
    requires vals != []
  {
    Median(Deviations(vals, Median(vals))) * MAD_SCALE
  }

  // ---------------------------------------------------------------- what a majority decides

  /** How many values lie in [lo, hi]. */
  function Within(vals: seq<real>, lo: real, hi: real): (n: nat)
    ensures n <= |vals|
  {
    if vals == [] then 0 else (if lo <= vals[0] <= hi then 1 else 0) + Within(vals[1..], lo, hi)
  }

  lemma {:induction false} WithinConcat(a: seq<real>, b: seq<real>, lo: real, hi: real)
    ensures Within(a + b, lo, hi) == Within(a, lo, hi) + Within(b, lo, hi)
  {
    if a == [] {
      assert a + b == b;
    } else {
      assert (a + b)[1..] == a[1..] + b;
      WithinConcat(a[1..], b, lo, hi);
    }
  }

  lemma {:induction false} WithinInsert(x: real, s: seq<real>, lo: real, hi: real)
    ensures Within(InsertValue(x, s), lo, hi) == Within(s, lo, hi) + (if lo <= x <= hi then 1 else 0)
  {
    if s == [] || x <= s[0] {
      assert InsertValue(x, s)[1..] == s;
    } else {
      WithinInsert(x, s[1..], lo, hi);
      assert InsertValue(x, s)[1..] == InsertValue(x, s[1..]);
    }
  }

  lemma {:induction false} WithinSorted(vals: seq<real>, lo: real, hi: real)
    ensures Within(Sorted(vals), lo, hi) == Within(vals, lo, hi)
  {
    if vals != [] {
      WithinSorted(vals[1..], lo, hi);
      WithinInsert(vals[0], Sorted(vals[1..]), lo, hi);
    }
  }

  lemma {:induction false} NoneWithin(s: seq<real>, lo: real, hi: real)
    requires forall i :: 0 <= i < |s| ==> !(lo <= s[i] <= hi)
    ensures Within(s, lo, hi) == 0
  {
    if s != [] {
      NoneWithin(s[1..], lo, hi);
    }
  }

  /** In an ascending sequence with k values or fewer outside on either side, the
      k-th from either end is inside. */
  lemma MiddleWithin(s: seq<real>, lo: real, hi: real, k: nat)
    requires Ascending(s) && k < |s| && Within(s, lo, hi) > k && Within(s, lo, hi) > |s| - 1 - k
    ensures lo <= s[k] <= hi
  {
    assert s == s[..k] + s[k..] && s == s[..k + 1] + s[k + 1..];
    WithinConcat(s[..k], s[k..], lo, hi);
    WithinConcat(s[..k + 1], s[k + 1..], lo, hi);
    if s[k] > hi {
      NoneWithin(s[k..], lo, hi);
    } else if s[k] < lo {
      NoneWithin(s[..k + 1], lo, hi);
    }
  }

  /** The median lies between any bounds that hold a strict majority, whatever
      the others are. */
  lemma MedianOfMajority(vals: seq<real>, lo: real, hi: real)
    requires 2 * Within(vals, lo, hi) > |vals|
    ensures lo <= Median(vals) <= hi
  {
    SortedSorts(vals);
    WithinSorted(vals, lo, hi);
    var s, n := Sorted(vals), |vals|;
    MiddleWithin(s, lo, hi, n / 2);
    if n % 2 == 0 {
      MiddleWithin(s, lo, hi, n / 2 - 1);
    }
  }

  lemma {:induction false} DeviationsWithin(vals: seq<real>, center: real, lo: real, hi: real)
    requires lo <= center <= hi
    ensures Within(Deviations(vals, center), 0.0, hi - lo) >= Within(vals, lo, hi)
  {
    if vals != [] {
      DeviationsWithin(vals[1..], center, lo, hi);
      assert Deviations(vals, center)[1..] == Deviations(vals[1..], center);
    }
  }

  /** So does the MAD: a strict majority within [lo, hi] bounds it by their spread. */
  lemma MADOfMajority(vals: seq<real>, lo: real, hi: real)
    requires 2 * Within(vals, lo, hi) > |vals|
    ensures 0.0 <= MAD(vals) <= (hi - lo) * 1.4826
  {
    MedianOfMajority(vals, lo, hi);
    var deviations := Deviations(vals, Median(vals));
    DeviationsWithin(vals, Median(vals), lo, hi);
    MedianOfMajority(deviations, 0.0, hi - lo);
  }

  /** At most half the values lie on either side of the median. */
  lemma MedianHalves(vals: seq<real>)
    requires vals != []
    ensures var m := Median(vals); forall lo, hi :: lo <= hi && (hi < m || m < lo) ==> 2 * Within(vals, lo, hi) <= |vals|
  {
    forall lo: real, hi: real | lo <= hi && (hi < Median(vals) || Median(vals) < lo) ensures 2 * Within(vals, lo, hi) <= |vals| {
      if 2 * Within(vals, lo, hi) > |vals| {
        MedianOfMajority(vals, lo, hi);
      }
    }
  }

  lemma LeastIsFirst(a: seq<real>, b: seq<real>)
    requires Ascending(a) && Ascending(b) && a != [] && multiset(a) == multiset(b)
    ensures b != [] && b[0] <= a[0]
  {
    assert a[0] in multiset(b);
    var j :| 0 <= j < |b| && b[j] == a[0];
  }

  lemma Tail(a: seq<real>)
    requires a != []
    ensures multiset(a[1..]) == multiset(a) - multiset{a[0]}
  {
    assert a == [a[0]] + a[1..];
  }

  lemma {:induction false} AscendingUnique(a: seq<real>, b: seq<real>)
    requires Ascending(a) && Ascending(b) && multiset(a) == multiset(b)
    ensures a == b
  {
    if a == [] {
      assert |multiset(b)| == |b|;
    } else {
      LeastIsFirst(a, b);
      LeastIsFirst(b, a);
      Tail(a);
      Tail(b);
      AscendingUnique(a[1..], b[1..]);
      assert a == [a[0]] + a[1..] && b == [b[0]] + b[1..];
    }
  }

  lemma SortedIgnoresOrder(a: seq<real>, b: seq<real>)
    requires multiset(a) == multiset(b)
    ensures |a| == |b| && Sorted(a) == Sorted(b)
  {
    SortedSorts(a);
    SortedSorts(b);
    AscendingUnique(Sorted(a), Sorted(b));
    assert |multiset(a)| == |a| && |multiset(b)| == |b|;
  }

  /** The order of the samples does not matter. */
  lemma MedianIgnoresOrder(a: seq<real>, b: seq<real>)
    requires a != [] && multiset(a) == multiset(b)
    ensures b != [] && Median(a) == Median(b)
  {
    SortedIgnoresOrder(a, b);
    assert b != [];
  }

  /** Whichever way the samples are sorted: the middle one, or halfway between the
      middle two. */
  lemma MedianMeaning(vals: seq<real>, s: seq<real>)
    requires vals != [] && multiset(s) == multiset(vals) && forall i, j :: 0 <= i < j < |s| ==> s[i] <= s[j]
    ensures |s| == |vals|
    ensures |vals| % 2 == 1 ==> Median(vals) == s[|s| / 2]
    ensures |vals| % 2 == 0 ==> 2.0 * Median(vals) == s[|s| / 2 - 1] + s[|s| / 2]
  {
    SortedSorts(vals);
    AscendingUnique(Sorted(vals), s);
  }

  lemma {:induction false} DeviationsAt(vals: seq<real>, center: real, i: nat)
    requires i < |vals|
    ensures Deviations(vals, center)[i] == if vals[i] < center then center - vals[i] else vals[i] - center
  {
    if i > 0 {
      DeviationsAt(vals[1..], center, i - 1);
    }
  }

  /** The MAD is 1.4826 medians of the distances from the median. */
  lemma MADMeaning(vals: seq<real>, distances: seq<real>)
    requires vals != [] && |distances| == |vals|
    requires forall i :: 0 <= i < |vals| ==>
               distances[i] == if vals[i] < Median(vals) then Median(vals) - vals[i] else vals[i] - Median(vals)
    ensures MAD(vals) == 1.4826 * Median(distances)
  {
    forall i | 0 <= i < |vals| ensures Deviations(vals, Median(vals))[i] == distances[i] {
      DeviationsAt(vals, Median(vals), i);
    }
    assert Deviations(vals, Median(vals)) == distances;
  }

  // ---------------------------------------------------------------- the z-score

  const Z_THRESHOLD := 3.5

  function RobustZ(value: real, median: real, mad: real): real {
    if mad == 0.0 then
      if value == median then 0.0 else if value > median then Z_THRESHOLD + 1.0 else -(Z_THRESHOLD + 1.0)
    else (value - median) / mad
  }

  /** The score counts MADs from the median; with a MAD of zero it is 4.5 either
      way.  So 3.5 is passed exactly by a deviation of more than 3.5 MADs. */
  lemma ZMeaning(value: real, median: real, mad: real)
    requires mad >= 0.0
    ensures mad > 0.0 ==> RobustZ(value, median, mad) * mad == value - median
    ensures mad == 0.0 ==>
              RobustZ(value, median, mad) == if value == median then 0.0 else if value > median then 4.5 else -4.5
    ensures RobustZ(value, median, mad) > 3.5 <==> value - median > 3.5 * mad
    ensures RobustZ(value, median, mad) < -3.5 <==> median - value > 3.5 * mad
    ensures RobustZ(value, median, mad) > 0.0 <==> value > median
    ensures RobustZ(value, median, mad) < 0.0 <==> value < median
  {
    if mad > 0.0 {
      QuotientBounds(value - median, mad);
      QuotientBounds(median - value, mad);
    }
  }

  lemma QuotientBounds(d: real, mad: real)
    requires mad > 0.0
    ensures d / mad * mad == d
    ensures d / mad > 3.5 <==> d > 3.5 * mad
    ensures d / mad > 0.0 <==> d > 0.0
    ensures (-d) / mad == -(d / mad)
  {
    var q, r := d / mad, (-d) / mad;
    assert q * mad == d && r * mad == -d;
    ProductSign(q - 3.5, mad);
    ProductSign(3.5 - q, mad);
    assert (q - 3.5) * mad == d - 3.5 * mad && (3.5 - q) * mad == 3.5 * mad - d;
    ProductSign(q + r, mad);
    ProductSign(-(q + r), mad);
    assert (q + r) * mad == 0.0 && -(q + r) * mad == 0.0;
  }
}
