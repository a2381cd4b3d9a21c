/** What the cached numbers and the deal flags say about the price log, in every coherent state. */
module CacheMeaning {
  import opened Prelude
  import opened Tables
  import opened Statistics
  import opened Offers
  import opened Cache

  // Some offer of the product, in the store or in any, has the id the snapshot carries.
  ghost predicate OfKey(offers: seq<Offer>, s: Snapshot, productId: Id, storeId: Option<Id>) {
    exists o :: o in offers && o.id == s.offerId && o.productId == productId
                && (storeId == None || storeId == Some(o.storeId))
  }

  lemma JoinedIffOfKey(offers: seq<Offer>, s: Snapshot, productId: Id, storeId: Option<Id>)
    ensures Joined(Keys(offers), productId, storeId)(s) <==> OfKey(offers, s, productId, storeId)
  {
    forall o | o in offers && o.id == s.offerId && o.productId == productId && (storeId == None || storeId == Some(o.storeId))
      ensures Joined(Keys(offers), productId, storeId)(s)
    {
      assert KeyOf(o) in Keys(offers);
    }
  }

  // The snapshots that belong to a product, in one store or in any.
  ghost predicate Belongs(db: Db, s: Snapshot, productId: Id, storeId: Option<Id>) {
    s in db.snapshots && OfKey(db.offers, s, productId, storeId)
  }

  ghost predicate IsLowest(db: Db, price: real, productId: Id, storeId: Option<Id>) {
    && (exists s :: Belongs(db, s, productId, storeId) && s.quote.eurPrice == price)
    && (forall s | Belongs(db, s, productId, storeId) :: price <= s.quote.eurPrice)
  }

  lemma LogHoldsBelonging(db: Db, productId: Id, storeId: Option<Id>, price: real)
    ensures price in Prices(Log(Keys(db.offers), db.snapshots, productId, storeId)) <==>
              exists s :: Belongs(db, s, productId, storeId) && s.quote.eurPrice == price
  {
    var keys := Keys(db.offers);
    var rows := Filter(db.snapshots, Joined(keys, productId, storeId));
    var sorted := Sort(rows, ByCapture());
    var prices := Prices(Log(keys, db.snapshots, productId, storeId));
    SortContents(rows, ByCapture());
    forall s ensures Joined(keys, productId, storeId)(s) <==> OfKey(db.offers, s, productId, storeId) {
      JoinedIffOfKey(db.offers, s, productId, storeId);
    }
    if price in prices {
      var i :| 0 <= i < |prices| && prices[i] == price;
      assert sorted[i] in rows && sorted[i].quote.eurPrice == price;
      assert Belongs(db, sorted[i], productId, storeId);
    }
    forall s | Belongs(db, s, productId, storeId) && s.quote.eurPrice == price ensures price in prices {
      assert s in sorted;
      var i :| 0 <= i < |sorted| && sorted[i] == s;
      assert prices[i] == price;
    }
  }

  // Every key an offer has holds exactly one row.
  lemma ExactlyOneRow(db: Db, o: Offer, storeId: Option<Id>)
    requires Coherent(db) && o in db.offers && (storeId == None || storeId == Some(o.storeId))
    ensures exists a :: a in db.analytics && AnalyticsKey()(a) == (o.productId, storeId)
    ensures forall a, b | a in db.analytics && b in db.analytics
                          && AnalyticsKey()(a) == AnalyticsKey()(b) :: a == b
    ensures GetAnalytics(db.analytics, o.productId, storeId).Some?
  {
    assert (o.productId, storeId) in RowKeys(db.analytics);
    forall a, b | a in db.analytics && b in db.analytics && AnalyticsKey()(a) == AnalyticsKey()(b)
      ensures a == b
    {
      SameKeySameRow(db.analytics, AnalyticsKey(), a, b);
    }
    var a :| a in db.analytics && AnalyticsKey()(a) == (o.productId, storeId);
    assert ForKey(o.productId, storeId)(a);
  }

  // A row's all-time minimum is the lowest price ever recorded for its key.
  lemma AllTimeMinimum(db: Db, a: Analytics)
    requires Coherent(db) && a in db.analytics
    ensures a.minAllTime.Some? <==> exists s :: Belongs(db, s, a.productId, a.storeId)
    ensures a.minAllTime.Some? ==> IsLowest(db, a.minAllTime.value, a.productId, a.storeId)
  {
    assert RowAgrees(Keys(db.offers), db.snapshots, a);
    var prices := Prices(Log(Keys(db.offers), db.snapshots, a.productId, a.storeId));
    MinOfIsMin(prices);
    if a.minAllTime.Some? {
      LogHoldsBelonging(db, a.productId, a.storeId, a.minAllTime.value);
    }
    forall s | Belongs(db, s, a.productId, a.storeId)
      ensures s.quote.eurPrice in prices
    {
      LogHoldsBelonging(db, a.productId, a.storeId, s.quote.eurPrice);
    }
  }

  lemma OfferBelongs(db: Db, o: Offer) returns (s: Snapshot)
    requires Coherent(db) && o in db.offers
    ensures s.quote == o.quote
    ensures Belongs(db, s, o.productId, None) && Belongs(db, s, o.productId, Some(o.storeId))
  {
    assert IsCurrent(db.snapshots, o);
    var history := Filter(db.snapshots, OfOffer(o.id));
    s := history[|history| - 1];
    assert s in history;
    assert KeyOf(o) in Keys(db.offers);
  }

  lemma RowOfOffer(db: Db, o: Offer, storeId: Option<Id>) returns (a: Analytics)
    requires Coherent(db) && o in db.offers && (storeId == None || storeId == Some(o.storeId))
    ensures GetAnalytics(db.analytics, o.productId, storeId) == Some(a)
    ensures a in db.analytics && a.productId == o.productId && a.storeId == storeId
    ensures a.minAllTime.Some? && IsLowest(db, a.minAllTime.value, o.productId, storeId)
    ensures RowAgrees(Keys(db.offers), db.snapshots, a)
  {
    ExactlyOneRow(db, o, storeId);
    a := GetAnalytics(db.analytics, o.productId, storeId).value;
    AllTimeMinimum(db, a);
    var _ := OfferBelongs(db, o);
  }

  lemma LowestOverStores(db: Db, m: real, other: real, productId: Id, storeId: Option<Id>)
    requires IsLowest(db, m, productId, None) && IsLowest(db, other, productId, storeId)
    ensures m <= other
  {
    var s :| Belongs(db, s, productId, storeId) && s.quote.eurPrice == other;
    assert Belongs(db, s, productId, None);
  }

  lemma LowestIsOfAStore(db: Db, m: real, productId: Id) returns (holder: Offer)
    requires IsLowest(db, m, productId, None)
    ensures holder in db.offers && holder.productId == productId
    ensures IsLowest(db, m, productId, Some(holder.storeId))
  {
    var s :| Belongs(db, s, productId, None) && s.quote.eurPrice == m;
    holder :| holder in db.offers && holder.id == s.offerId && holder.productId == productId;
    assert Belongs(db, s, productId, Some(holder.storeId));
    forall t | Belongs(db, t, productId, Some(holder.storeId)) ensures m <= t.quote.eurPrice {
      assert Belongs(db, t, productId, None);
    }
  }

  lemma LowestIsUnique(db: Db, x: real, y: real, productId: Id, storeId: Option<Id>)
    requires IsLowest(db, x, productId, storeId) && IsLowest(db, y, productId, storeId)
    ensures x == y
  {}

  // The lowest price of a product is the lowest of its stores' lowest prices.
  lemma ProductMinimum(db: Db, o: Offer)
    requires Coherent(db) && o in db.offers
    ensures var all := GetAnalytics(db.analytics, o.productId, None);
            && all.Some? && all.value.minAllTime.Some?
            && (forall a | a in db.analytics && a.productId == o.productId && a.minAllTime.Some? ::
                  all.value.minAllTime.value <= a.minAllTime.value)
            && (exists a :: a in db.analytics && a.productId == o.productId && a.storeId.Some?
                            && a.minAllTime == all.value.minAllTime)
  {
    var all := RowOfOffer(db, o, None);
    var m := all.minAllTime.value;
    forall a | a in db.analytics && a.productId == o.productId && a.minAllTime.Some?
      ensures m <= a.minAllTime.value
    {
      AllTimeMinimum(db, a);
      LowestOverStores(db, m, a.minAllTime.value, o.productId, a.storeId);
    }
    var holder := LowestIsOfAStore(db, m, o.productId);
    var a := RowOfOffer(db, holder, Some(holder.storeId));
    LowestIsUnique(db, m, a.minAllTime.value, o.productId, a.storeId);
  }

  ghost predicate NoHigher(longer: Option<real>, shorter: Option<real>) {
    shorter.Some? ==> longer.Some? && longer.value <= shorter.value
  }

  // The windows nest, and the yearly numbers are ordered.
  lemma WindowsOfRow(db: Db, a: Analytics)
    requires Coherent(db) && a in db.analytics
    ensures NoHigher(a.min90d, a.min30d) && NoHigher(a.min180d, a.min90d)
    ensures NoHigher(a.min365d, a.min180d) && NoHigher(a.minAllTime, a.min365d)
    ensures NoHigher(a.min365d, a.lowest10) && NoHigher(a.min365d, a.avg365d)
  {
    assert RowAgrees(Keys(db.offers), db.snapshots, a);
    var log := Log(Keys(db.offers), db.snapshots, a.productId, a.storeId);
    var now := a.calculatedAt;
    WindowsNest(log, now, 30, 90);
    WindowsNest(log, now, 90, 180);
    WindowsNest(log, now, 180, 365);
    var year := Prices(Recent(log, now, 365));
    MinOfIsMin(year);
    if year != [] {
      LowestTenthIsOrderStatistic(year);
      MinAtMostMean(year);
    }
  }

  // An offer is flagged as a historical minimum exactly when its price is the lowest one ever
  // recorded for its product in its store, and then it is also flagged as among the lowest 10%.
  lemma FlagsMean(db: Db, o: Offer)
    requires Coherent(db) && o in db.offers
    ensures OfferFlags(db.analytics, o).isHistoricalMin <==>
              IsLowest(db, o.quote.eurPrice, o.productId, Some(o.storeId))
    ensures OfferFlags(db.analytics, o).isHistoricalMin ==> OfferFlags(db.analytics, o).isLowest10
  {
    var a := RowOfOffer(db, o, Some(o.storeId));
    var s := OfferBelongs(db, o);
    FlagsOfRow(db, o, a, s);
  }

  lemma FlagsOfRow(db: Db, o: Offer, a: Analytics, s: Snapshot)
    requires GetAnalytics(db.analytics, o.productId, Some(o.storeId)) == Some(a)
    requires a.productId == o.productId && a.storeId == Some(o.storeId)
    requires RowAgrees(Keys(db.offers), db.snapshots, a)
    requires a.minAllTime.Some? && IsLowest(db, a.minAllTime.value, o.productId, Some(o.storeId))
    requires s.quote == o.quote && Belongs(db, s, o.productId, Some(o.storeId))
    ensures OfferFlags(db.analytics, o).isHistoricalMin <==>
              IsLowest(db, o.quote.eurPrice, o.productId, Some(o.storeId))
    ensures OfferFlags(db.analytics, o).isHistoricalMin ==> OfferFlags(db.analytics, o).isLowest10
  {
    var price := o.quote.eurPrice;
    if price <= a.minAllTime.value {
      LowestInYear(Log(Keys(db.offers), db.snapshots, a.productId, a.storeId), a, price);
    }
    if IsLowest(db, price, o.productId, Some(o.storeId)) {
      LowestIsUnique(db, price, a.minAllTime.value, o.productId, Some(o.storeId));
    }
  }

  lemma LowestInYear(log: seq<Point>, a: Analytics, price: real)
    requires a == Summary(log, a.productId, a.storeId, a.calculatedAt)
    requires Recent(log, a.calculatedAt, 365) != []
    requires a.minAllTime.Some? && price <= a.minAllTime.value
    ensures ReachedBy(price, a.lowest10)
  {
    MinimumIsInLowestTenth(log, Recent(log, a.calculatedAt, 365), price);
  }

  // ---- every number of a row, from the snapshots themselves ----

  // The snapshots of a key taken at a time or later, or ever.
  ghost function LoggedRow(offers: seq<Offer>, productId: Id, storeId: Option<Id>, from: Option<int>): Snapshot -> bool {
    (s: Snapshot) => OfKey(offers, s, productId, storeId) && (from.Some? ==> s.capturedAt >= from.value)
  }

  ghost function Logged(db: Db, productId: Id, storeId: Option<Id>, from: Option<int>): seq<Snapshot> {
    Filter(db.snapshots, LoggedRow(db.offers, productId, storeId, from))
  }

  function PriceOf(): Snapshot -> real { (s: Snapshot) => s.quote.eurPrice }

  function CapturedSince(cutoff: int): Snapshot -> bool { (s: Snapshot) => s.capturedAt >= cutoff }

  lemma PricesOfSorted(rows: seq<Snapshot>, cutoff: int)
    ensures multiset(Prices(Filter(MapSeq(Sort(rows, ByCapture()), PointOf()), Since(cutoff)))) ==
              multiset(MapSeq(Filter(rows, CapturedSince(cutoff)), PriceOf()))
  {
    var sorted, recent := Sort(rows, ByCapture()), CapturedSince(cutoff);
    SortContents(rows, ByCapture());
    FilterPermuted(sorted, rows, recent);
    FilterOfMap(sorted, PointOf(), Since(cutoff), recent);
    assert Prices(MapSeq(Filter(sorted, recent), PointOf())) == MapSeq(Filter(sorted, recent), PriceOf());
    MapPermuted(Filter(sorted, recent), Filter(rows, recent), PriceOf());
  }

  lemma JoinedSinceIsLogged(db: Db, productId: Id, storeId: Option<Id>, cutoff: int)
    ensures Filter(Filter(db.snapshots, Joined(Keys(db.offers), productId, storeId)), CapturedSince(cutoff)) ==
              Logged(db, productId, storeId, Some(cutoff))
  {
    var joined, both := Joined(Keys(db.offers), productId, storeId), LoggedRow(db.offers, productId, storeId, Some(cutoff));
    forall s | s in db.snapshots ensures both(s) == (joined(s) && CapturedSince(cutoff)(s)) {
      JoinedIffOfKey(db.offers, s, productId, storeId);
    }
    FilterFilter(db.snapshots, joined, CapturedSince(cutoff), both);
  }

  lemma PricesOfLog(joined: seq<Snapshot>, rows: seq<Snapshot>, now: int, days: nat)
    requires rows == Filter(joined, CapturedSince(now - days * DAY))
    ensures multiset(Prices(Recent(MapSeq(Sort(joined, ByCapture()), PointOf()), now, days))) == multiset(MapSeq(rows, PriceOf()))
  {
    PricesOfSorted(joined, now - days * DAY);
  }

  // The prices a window is computed from are those of the key's snapshots in it, in some order.
  lemma WindowHoldsLogged(db: Db, productId: Id, storeId: Option<Id>, now: int, days: nat)
    ensures multiset(Prices(Recent(Log(Keys(db.offers), db.snapshots, productId, storeId), now, days))) ==
              multiset(MapSeq(Logged(db, productId, storeId, Some(now - days * 86_400)), PriceOf()))
  {
    JoinedSinceIsLogged(db, productId, storeId, now - days * DAY);
    PricesOfLog(Filter(db.snapshots, Joined(Keys(db.offers), productId, storeId)),
                Logged(db, productId, storeId, Some(now - days * 86_400)), now, days);
  }

  ghost predicate LowestPriceOf(m: Option<real>, rows: seq<Snapshot>) {
    && (m.Some? <==> rows != [])
    && (m.Some? ==> (exists s :: s in rows && s.quote.eurPrice == m.value) && forall s | s in rows :: m.value <= s.quote.eurPrice)
  }

  lemma MinIsLowestPrice(prices: seq<real>, rows: seq<Snapshot>)
    requires multiset(prices) == multiset(MapSeq(rows, PriceOf()))
    ensures LowestPriceOf(MinOf(prices), rows)
  {
    MinOfIsMin(prices);
    SamePrices(prices, rows);
  }

  lemma SamePrices(prices: seq<real>, rows: seq<Snapshot>)
    requires multiset(prices) == multiset(MapSeq(rows, PriceOf()))
    ensures |prices| == |rows|
    ensures forall s | s in rows :: s.quote.eurPrice in prices
    ensures forall x | x in prices :: exists s :: s in rows && s.quote.eurPrice == x
  {
    var listed := MapSeq(rows, PriceOf());
    assert |multiset(prices)| == |multiset(listed)|;
    forall s | s in rows ensures s.quote.eurPrice in prices {
      var i :| 0 <= i < |rows| && rows[i] == s;
      assert listed[i] in multiset(prices);
    }
    forall x | x in prices ensures exists s :: s in rows && s.quote.eurPrice == x {
      assert x in multiset(listed);
      var i :| 0 <= i < |listed| && listed[i] == x;
      assert rows[i] in rows;
    }
  }

  function TotalPrice(rows: seq<Snapshot>): real {
    if rows == [] then 0.0 else rows[0].quote.eurPrice + TotalPrice(rows[1..])
  }

  function CheaperThan(price: real): Snapshot -> bool { (s: Snapshot) => s.quote.eurPrice < price }

  function NoDearerThan(price: real): Snapshot -> bool { (s: Snapshot) => s.quote.eurPrice <= price }

  lemma {:induction false} TotalIsSum(rows: seq<Snapshot>)
    ensures TotalPrice(rows) == Sum(MapSeq(rows, PriceOf()))
  {
    if rows != [] {
      TotalIsSum(rows[1..]);
      assert MapSeq(rows, PriceOf()) == [rows[0].quote.eurPrice] + MapSeq(rows[1..], PriceOf());
    }
  }

  // The mean times the number of rows is their sum.
  ghost predicate MeanPriceOf(mean: Option<real>, rows: seq<Snapshot>) {
    && (mean.Some? <==> rows != [])
    && (mean.Some? ==> mean.value * |rows| as real == TotalPrice(rows))
  }

  // The threshold is one of the prices; at least a tenth of the rows are at or below it, and less
  // than a tenth are below it.
  ghost predicate TenthPriceOf(threshold: Option<real>, rows: seq<Snapshot>) {
    && (threshold.Some? <==> rows != [])
    && (threshold.Some? ==>
          && (exists s :: s in rows && s.quote.eurPrice == threshold.value)
          && 10 * |Filter(rows, NoDearerThan(threshold.value))| >= |rows|
          && 10 * |Filter(rows, CheaperThan(threshold.value))| < |rows|)
  }

  lemma CountsAsPrices(prices: seq<real>, rows: seq<Snapshot>, t: real)
    requires multiset(prices) == multiset(MapSeq(rows, PriceOf()))
    ensures |Filter(prices, AtMost(t))| == |Filter(rows, NoDearerThan(t))|
    ensures |Filter(prices, Below(t))| == |Filter(rows, CheaperThan(t))|
  {
    FilterPermuted(prices, MapSeq(rows, PriceOf()), AtMost(t));
    FilterPermuted(prices, MapSeq(rows, PriceOf()), Below(t));
    FilterOfMap(rows, PriceOf(), AtMost(t), NoDearerThan(t));
    FilterOfMap(rows, PriceOf(), Below(t), CheaperThan(t));
  }

  lemma MeanIsMeanPrice(prices: seq<real>, rows: seq<Snapshot>)
    requires multiset(prices) == multiset(MapSeq(rows, PriceOf()))
    ensures MeanPriceOf(Mean(prices), rows)
  {
    SamePrices(prices, rows);
    SumIgnoresOrder(prices, MapSeq(rows, PriceOf()));
    TotalIsSum(rows);
    if prices != [] {
      MeanTimesCount(prices);
    }
  }

  lemma ThresholdIsTenthPrice(prices: seq<real>, rows: seq<Snapshot>)
    requires multiset(prices) == multiset(MapSeq(rows, PriceOf()))
    ensures TenthPriceOf(LowestTenth(prices), rows)
  {
    SamePrices(prices, rows);
    if prices != [] {
      var t := LowestTenth(prices).value;
      LowestTenthIsOrderStatistic(prices);
      CountsAsPrices(prices, rows, t);
      TenthOf(|Filter(rows, NoDearerThan(t))|, |Filter(rows, CheaperThan(t))|, |rows|);
    }
  }

  lemma TenthOf(atMost: nat, below: nat, n: nat)
    requires atMost >= Tenth(n) && below < Tenth(n)
    ensures 10 * atMost >= n && 10 * below < n
  {}

  lemma RowFollowsLog(db: Db, a: Analytics)
    requires RowAgrees(Keys(db.offers), db.snapshots, a)
    ensures var log := Log(Keys(db.offers), db.snapshots, a.productId, a.storeId);
            && a.min30d == MinForDays(log, a.calculatedAt, 30) && a.min90d == MinForDays(log, a.calculatedAt, 90)
            && a.min180d == MinForDays(log, a.calculatedAt, 180) && a.min365d == MinForDays(log, a.calculatedAt, 365)
            && a.avg365d == Mean(Prices(Recent(log, a.calculatedAt, 365)))
            && a.lowest10 == LowestTenth(Prices(Recent(log, a.calculatedAt, 365)))
  {}

  // The lowest price of the row's key over the days before the row was computed.
  ghost predicate LowestInWindow(db: Db, a: Analytics, m: Option<real>, days: nat) {
    LowestPriceOf(m, Logged(db, a.productId, a.storeId, Some(a.calculatedAt - days * 86_400)))
  }

  // Every cached number is what its name says of the snapshots joined to the row's key: five minima
  // over windows that end at the row's own time, the mean and the lowest-10% threshold of the year.
  lemma NumbersOfRow(db: Db, a: Analytics)
    requires Coherent(db) && a in db.analytics
    ensures LowestInWindow(db, a, a.min30d, 30)
    ensures LowestInWindow(db, a, a.min90d, 90)
    ensures LowestInWindow(db, a, a.min180d, 180)
    ensures LowestInWindow(db, a, a.min365d, 365)
    ensures LowestPriceOf(a.minAllTime, Logged(db, a.productId, a.storeId, None))
    ensures MeanPriceOf(a.avg365d, Logged(db, a.productId, a.storeId, Some(a.calculatedAt - 365 * 86_400)))
    ensures TenthPriceOf(a.lowest10, Logged(db, a.productId, a.storeId, Some(a.calculatedAt - 365 * 86_400)))
  {
    assert RowAgrees(Keys(db.offers), db.snapshots, a);
    MinimaOfRow(db, a);
    YearOfRow(db, a);
    AllTimeIsLowest(db, a);
  }

  lemma MinimaOfRow(db: Db, a: Analytics)
    requires RowAgrees(Keys(db.offers), db.snapshots, a)
    ensures LowestInWindow(db, a, a.min30d, 30)
    ensures LowestInWindow(db, a, a.min90d, 90)
    ensures LowestInWindow(db, a, a.min180d, 180)
    ensures LowestInWindow(db, a, a.min365d, 365)
  {
    RowFollowsLog(db, a);
    WindowMinimum(db, a, 30);
    WindowMinimum(db, a, 90);
    WindowMinimum(db, a, 180);
    WindowMinimum(db, a, 365);
  }

  lemma YearOfRow(db: Db, a: Analytics)
    requires RowAgrees(Keys(db.offers), db.snapshots, a)
    ensures MeanPriceOf(a.avg365d, Logged(db, a.productId, a.storeId, Some(a.calculatedAt - 365 * 86_400)))
    ensures TenthPriceOf(a.lowest10, Logged(db, a.productId, a.storeId, Some(a.calculatedAt - 365 * 86_400)))
  {
    var rows := Logged(db, a.productId, a.storeId, Some(a.calculatedAt - 365 * 86_400));
    var prices := Prices(Recent(Log(Keys(db.offers), db.snapshots, a.productId, a.storeId), a.calculatedAt, 365));
    RowFollowsLog(db, a);
    WindowHoldsLogged(db, a.productId, a.storeId, a.calculatedAt, 365);
    MeanIsMeanPrice(prices, rows);
    ThresholdIsTenthPrice(prices, rows);
  }

  lemma AllTimeIsLowest(db: Db, a: Analytics)
    requires Coherent(db) && a in db.analytics
    ensures LowestPriceOf(a.minAllTime, Logged(db, a.productId, a.storeId, None))
  {
    AllTimeMinimum(db, a);
    var rows := Logged(db, a.productId, a.storeId, None);
    assert forall s :: s in rows <==> Belongs(db, s, a.productId, a.storeId);
    assert rows != [] ==> rows[0] in rows;
  }

  lemma WindowMinimum(db: Db, a: Analytics, days: nat)
    ensures LowestInWindow(db, a, MinForDays(Log(Keys(db.offers), db.snapshots, a.productId, a.storeId), a.calculatedAt, days), days)
  {
    WindowHoldsLogged(db, a.productId, a.storeId, a.calculatedAt, days);
    MinIsLowestPrice(Prices(Recent(Log(Keys(db.offers), db.snapshots, a.productId, a.storeId), a.calculatedAt, days)),
                     Logged(db, a.productId, a.storeId, Some(a.calculatedAt - days * 86_400)));
  }

  // Less than a tenth of the prices logged for the offer's product in its store, over the year that
  // ended when the cached row was computed, are below the offer's.
  ghost predicate AmongLowestTenth(db: Db, o: Offer) {
    exists a :: a in db.analytics && a.productId == o.productId && a.storeId == Some(o.storeId)
                && CheapInYear(db, o, a.calculatedAt)
  }

  ghost predicate CheapInYear(db: Db, o: Offer, at: int) {
    var year := Logged(db, o.productId, Some(o.storeId), Some(at - 365 * 86_400));
    10 * |Filter(year, CheaperThan(o.quote.eurPrice))| < |year|
  }

  lemma {:induction false} FilterWeakens<T(!new)>(s: seq<T>, p: T -> bool, q: T -> bool)
    requires forall x | x in s && p(x) :: q(x)
    ensures |Filter(s, p)| <= |Filter(s, q)|
  {
    if s != [] {
      FilterWeakens(s[1..], p, q);
    }
  }

  lemma ReachedIffCheap(rows: seq<Snapshot>, threshold: Option<real>, price: real)
    requires TenthPriceOf(threshold, rows)
    ensures ReachedBy(price, threshold) <==> 10 * |Filter(rows, CheaperThan(price))| < |rows|
  {
    if threshold.Some? {
      if price <= threshold.value {
        FilterWeakens(rows, CheaperThan(price), CheaperThan(threshold.value));
      } else {
        FilterWeakens(rows, NoDearerThan(threshold.value), CheaperThan(price));
      }
    }
  }

  lemma FlagOfRow(db: Db, o: Offer, a: Analytics)
    requires GetAnalytics(db.analytics, o.productId, Some(o.storeId)) == Some(a)
    requires RowAgrees(Keys(db.offers), db.snapshots, a)
    ensures OfferFlags(db.analytics, o).isLowest10 <==> CheapInYear(db, o, a.calculatedAt)
  {
    var year := Logged(db, a.productId, a.storeId, Some(a.calculatedAt - 365 * 86_400));
    YearOfRow(db, a);
    ReachedIffCheap(year, a.lowest10, o.quote.eurPrice);
  }

  // An offer is flagged as among the lowest 10% exactly if less than a tenth of the year is cheaper.
  lemma LowestTenthFlagMeans(db: Db, o: Offer)
    requires Coherent(db) && o in db.offers
    ensures OfferFlags(db.analytics, o).isLowest10 <==> AmongLowestTenth(db, o)
  {
    var a := RowOfOffer(db, o, Some(o.storeId));
    FlagOfRow(db, o, a);
    OnlyRowDecides(db, o, a);
  }

  lemma OnlyRowDecides(db: Db, o: Offer, a: Analytics)
    requires Distinct(db.analytics, AnalyticsKey())
    requires a in db.analytics && a.productId == o.productId && a.storeId == Some(o.storeId)
    ensures AmongLowestTenth(db, o) <==> CheapInYear(db, o, a.calculatedAt)
  {
    forall b | b in db.analytics && b.productId == o.productId && b.storeId == Some(o.storeId) ensures b == a {
      SameKeySameRow(db.analytics, AnalyticsKey(), a, b);
    }
  }
}
