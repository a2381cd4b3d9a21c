/** The price statistics of domains/offers/service.py: minima over time windows, the mean, and
    the lowest-10% threshold. */
module Statistics {
  import opened Prelude
  import opened Tables

  // A price and the time it was captured.
  datatype Point = Point(price: real, at: int)

  function Prices(log: seq<Point>): seq<real> { MapSeq(log, (p: Point) => p.price) }

  function Since(cutoff: int): Point -> bool { (p: Point) => p.at >= cutoff }

  // The points of the last so many days.
  function Recent(log: seq<Point>, now: int, days: nat): seq<Point> {
    Filter(log, Since(now - days * DAY))
  }

  function MinOf(s: seq<real>): Option<real> {
    if s == [] then None
    else match MinOf(s[1..])
      case None => Some(s[0])
      case Some(m) => Some(if s[0] <= m then s[0] else m)
  }

  // What being the minimum means.
  ghost predicate IsMinOf(m: Option<real>, s: seq<real>) {
    && (m.Some? <==> s != [])
    && (m.Some? ==> m.value in s && forall x | x in s :: m.value <= x)
  }

  lemma {:induction false} MinOfIsMin(s: seq<real>)
    ensures IsMinOf(MinOf(s), s)
  {
    if s != [] {
      MinOfIsMin(s[1..]);
      assert s == [s[0]] + s[1..];
    }
  }

  function MinForDays(log: seq<Point>, now: int, days: nat): Option<real> {
    MinOf(Prices(Recent(log, now, days)))
  }

  // A longer window has a minimum whenever a shorter one has, and it is no higher.
  lemma WindowsNest(log: seq<Point>, now: int, shorter: nat, longer: nat)
    requires shorter <= longer
    ensures MinForDays(log, now, shorter).Some? ==>
              && MinForDays(log, now, longer).Some?
              && MinForDays(log, now, longer).value <= MinForDays(log, now, shorter).value
    ensures MinForDays(log, now, longer).Some? ==>
              && MinOf(Prices(log)).Some?
              && MinOf(Prices(log)).value <= MinForDays(log, now, longer).value
  {
    var small, large := Recent(log, now, shorter), Recent(log, now, longer);
    MinOfIsMin(Prices(small));
    MinOfIsMin(Prices(large));
    MinOfIsMin(Prices(log));
    SubsetPrices(small, large);
    SubsetPrices(large, log);
  }

  lemma SubsetPrices(a: seq<Point>, b: seq<Point>)
    requires forall p | p in a :: p in b
    ensures forall x | x in Prices(a) :: x in Prices(b)
  {
    forall x | x in Prices(a)
      ensures x in Prices(b)
    {
      var i :| 0 <= i < |a| && Prices(a)[i] == x;
      assert a[i] in b;
      var j :| 0 <= j < |b| && b[j] == a[i];
      assert Prices(b)[j] == x;
    }
  }

  // ---- mean ----

  function Sum(s: seq<real>): real { if s == [] then 0.0 else s[0] + Sum(s[1..]) }

  function Mean(s: seq<real>): Option<real> {
    if s == [] then None else Some(Sum(s) / |s| as real)
  }

  lemma {:induction false} SumAtLeast(s: seq<real>, m: real)
    requires forall i | 0 <= i < |s| :: m <= s[i]
    ensures Sum(s) >= |s| as real * m
  {
    if s != [] {
      SumAtLeast(s[1..], m);
      assert |s| as real * m == |s[1..]| as real * m + m;
    }
  }

  lemma MinAtMostMean(s: seq<real>)
    requires s != []
    ensures MinOf(s).value <= Mean(s).value
  {
    MinOfIsMin(s);
    var m, n := MinOf(s).value, |s| as real;
    forall i | 0 <= i < |s| ensures m <= s[i] { assert s[i] in s; }
    SumAtLeast(s, m);
    assert n * m / n == m;
    DivideMonotone(n * m, Sum(s), n);
  }

  lemma {:induction false} SumConcat(a: seq<real>, b: seq<real>)
    ensures Sum(a + b) == Sum(a) + Sum(b)
  {
    if a == [] {
      assert a + b == b;
    } else {
      SumConcat(a[1..], b);
      assert (a + b)[1..] == a[1..] + b;
    }
  }

  // The sum depends on the prices as a multiset only.
  lemma {:induction false} SumIgnoresOrder(a: seq<real>, b: seq<real>)
    requires multiset(a) == multiset(b)
    ensures Sum(a) == Sum(b)
  {
    if a == [] {
      assert |multiset(b)| == 0;
    } else {
      assert a[0] in multiset(b);
      var i :| 0 <= i < |b| && b[i] == a[0];
      var rest := b[..i] + b[i + 1..];
      SameRest(a, b, i);
      SumIgnoresOrder(a[1..], rest);
      SumConcat(b[..i], b[i + 1..]);
      SumConcat(b[..i], [b[i]] + b[i + 1..]);
      assert b == b[..i] + ([b[i]] + b[i + 1..]);
    }
  }

  lemma MeanTimesCount(s: seq<real>)
    requires s != []
    ensures Mean(s).value * |s| as real == Sum(s)
  {}

  lemma DivideMonotone(x: real, y: real, n: real)
    requires x <= y && n > 0.0
    ensures x / n <= y / n
  {}

  // ---- lowest 10% ----

  function Ascending(): (real, real) -> bool { (x: real, y: real) => x <= y }

  // One tenth of n, rounded up.
  function Tenth(n: nat): nat { (n + 9) / 10 }

  function LowestTenth(prices: seq<real>): Option<real> {
    if prices == [] then None
    else Some(Sort(prices, Ascending())[Tenth(|prices|) - 1])
  }

  function AtMost(t: real): real -> bool { (x: real) => x <= t }

  function Below(t: real): real -> bool { (x: real) => x < t }

  // The threshold is one of the prices; at least a tenth of the prices are at or below it and
  // less than a tenth are strictly below it.
  lemma LowestTenthIsOrderStatistic(prices: seq<real>)
    requires prices != []
    ensures var t := LowestTenth(prices).value;
            && t in prices
            && |Filter(prices, AtMost(t))| >= Tenth(|prices|)
            && |Filter(prices, Below(t))| < Tenth(|prices|)
  {
    var s, k := Sort(prices, Ascending()), Tenth(|prices|) - 1;
    var t := s[k];
    SortContents(prices, Ascending());
    SortSorted(prices, Ascending());
    assert t in s;
    SortKeepsCount(prices, Ascending(), AtMost(t));
    SortKeepsCount(prices, Ascending(), Below(t));
    RankOfSorted(s, k);
  }

  lemma RankOfSorted(s: seq<real>, k: nat)
    requires Sorted(s, Ascending()) && k < |s|
    ensures |Filter(s, AtMost(s[k]))| >= k + 1
    ensures |Filter(s, Below(s[k]))| <= k
  {
    FirstAreAtMost(s, k);
    LaterAreNotBelow(s, k);
  }

  lemma FirstAreAtMost(s: seq<real>, k: nat)
    requires Sorted(s, Ascending()) && k < |s|
    ensures |Filter(s, AtMost(s[k]))| >= k + 1
  {
    var first, later := s[..k + 1], s[k + 1..];
    assert s == first + later;
    FilterConcat(first, later, AtMost(s[k]));
    forall x | x in first ensures AtMost(s[k])(x) {
      var i :| 0 <= i < k + 1 && s[i] == x;
      if i < k { assert Ascending()(s[i], s[k]); }
    }
    FilterAll(first, AtMost(s[k]));
  }

  lemma LaterAreNotBelow(s: seq<real>, k: nat)
    requires Sorted(s, Ascending()) && k < |s|
    ensures |Filter(s, Below(s[k]))| <= k
  {
    var first, later := s[..k], s[k..];
    assert s == first + later;
    FilterConcat(first, later, Below(s[k]));
    forall x | x in later ensures !Below(s[k])(x) {
      var i :| 0 <= i < |later| && later[i] == x;
      if i > 0 { assert Ascending()(s[k], s[k + i]); }
    }
    FilterNone(later, Below(s[k]));
  }

  // The order in which the prices are listed does not matter.
  lemma LowestTenthIgnoresOrder(a: seq<real>, b: seq<real>)
    requires multiset(a) == multiset(b)
    ensures LowestTenth(a) == LowestTenth(b)
  {
    SortContents(a, Ascending());
    SortContents(b, Ascending());
    SortSorted(a, Ascending());
    SortSorted(b, Ascending());
    SortedUnique(Sort(a, Ascending()), Sort(b, Ascending()));
  }

  lemma {:induction false} SortedUnique(a: seq<real>, b: seq<real>)
    requires Sorted(a, Ascending()) && Sorted(b, Ascending())
    requires multiset(a) == multiset(b)
    ensures a == b
  {
    assert |a| == |multiset(a)| == |multiset(b)| == |b|;
    if a != [] {
      SameHead(a, b);
      SameRest(a, b, 0);
      assert b[..0] + b[1..] == b[1..];
      SortedUnique(a[1..], b[1..]);
      assert a == [a[0]] + a[1..] && b == [b[0]] + b[1..];
    }
  }

  lemma SameHead(a: seq<real>, b: seq<real>)
    requires a != [] && b != [] && multiset(a) == multiset(b)
    requires Sorted(a, Ascending()) && Sorted(b, Ascending())
    ensures a[0] == b[0]
  {
    assert a[0] in multiset(b) && b[0] in multiset(a);
    HeadIsLeast(a, b[0]);
    HeadIsLeast(b, a[0]);
  }

  lemma HeadIsLeast(a: seq<real>, x: real)
    requires Sorted(a, Ascending()) && x in a
    ensures a[0] <= x
  {
    var i :| 0 <= i < |a| && a[i] == x;
    if i > 0 { assert Ascending()(a[0], a[i]); }
  }

  // No price can be the minimum of the log without being among the lowest tenth of any part of
  // the log that holds at least one price.
  lemma MinimumIsInLowestTenth(log: seq<Point>, part: seq<Point>, price: real)
    requires part != [] && forall p | p in part :: p in log
    requires MinOf(Prices(log)).Some? && price <= MinOf(Prices(log)).value
    ensures price <= LowestTenth(Prices(part)).value
  {
    LowestTenthIsOrderStatistic(Prices(part));
    SubsetPrices(part, log);
    MinOfIsMin(Prices(log));
  }
}
