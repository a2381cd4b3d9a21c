/** Which deals a query lists and with which score and reasons, stated on the columns of offers,
    products and watchlists and on the price log. */
module DealMeaning {
  import opened Prelude
  import opened Tables
  import opened Offers
  import opened Cache
  import opened CacheMeaning
  import opened Deals
  import opened NotificationMeaning
  import Fx
  import N = Notifications

  // ---- which offers ----

  // The watchlists a query goes by.
  predicate Own(q: Query, w: Watchlist) { q.personalized && q.userId == Some(w.userId) && w.active && !w.archived }

  predicate Touches(w: Watchlist, p: Product) {
    || (w.productId.Some? && w.productId.value == p.id)
    || (w.categoryId.Some? && w.categoryId.value == p.categoryId)
    || (w.brandId.Some? && w.brandId == p.brandId)
  }

  ghost predicate InAskedCategory(categories: seq<Category>, q: Query, p: Product) {
    q.category.Some? && q.category.value != "" ==>
      exists c :: c in categories && c.id == p.categoryId && c.slug == q.category.value
  }

  // The offer of the product passes the filters of the query: it can be bought, is in the category,
  // costs no more than the limit, and some own watchlist has a criterion it meets, if there are any.
  ghost predicate Eligible(db: Db, watchlists: seq<Watchlist>, q: Query, o: Offer, p: Product) {
    && o in db.offers && p in db.products && p.id == o.productId
    && (o.quote.availability == "in_stock" || o.quote.availability == "limited")
    && InAskedCategory(db.categories, q, p)
    && (q.maxPrice.Some? ==> o.quote.eurPrice <= q.maxPrice.value)
    && ((exists w :: w in watchlists && Own(q, w)) ==> exists w :: w in watchlists && Own(q, w) && Touches(w, p))
  }

  // ---- which points ----

  ghost predicate FirstAt(watchlists: seq<Watchlist>, q: Query, p: Product, i: nat) {
    && i < |watchlists| && Own(q, watchlists[i]) && AsksFor(watchlists[i], p)
    && forall j | 0 <= j < i :: !(Own(q, watchlists[j]) && AsksFor(watchlists[j], p))
  }

  // The first own watchlist that asks for the product, if any does.
  ghost predicate FirstOwn(watchlists: seq<Watchlist>, q: Query, p: Product, first: Option<Watchlist>) {
    match first
    case None => forall w | w in watchlists && Own(q, w) :: !AsksFor(w, p)
    case Some(v) => exists i: nat :: FirstAt(watchlists, q, p, i) && watchlists[i] == v
  }

  predicate Cheap(w: Watchlist, o: Offer) { w.targetPrice.Some? && o.quote.eurPrice <= w.targetPrice.value }

  predicate Reduced(w: Watchlist, o: Offer) {
    w.discountThreshold.Some? && o.quote.discountPercent.Some? && o.quote.discountPercent.value >= w.discountThreshold.value
  }

  ghost predicate Earns(db: Db, o: Offer, first: Option<Watchlist>, r: Reason) {
    match r
    case Discount(x) => o.quote.discountPercent == Some(x) && x > 0.0
    case HistoricalMinimum => IsLowest(db, o.quote.eurPrice, o.productId, Some(o.storeId))
    case LowestTenth => AmongLowestTenth(db, o)
    case MatchesWatchlist => first.Some?
    case TargetPriceReached => first.Some? && Cheap(first.value, o)
    case DiscountThresholdReached => first.Some? && Reduced(first.value, o)
  }

  function Worth(r: Reason): real {
    match r
    case Discount(x) => if x <= 60.0 then x else 60.0
    case HistoricalMinimum => 35.0
    case LowestTenth => 25.0
    case MatchesWatchlist => 20.0
    case TargetPriceReached => 30.0
    case DiscountThresholdReached => 20.0
  }

  function TotalWorth(reasons: seq<Reason>): real {
    if reasons == [] then 0.0 else Worth(reasons[0]) + TotalWorth(reasons[1..])
  }

  function Place(r: Reason): nat {
    match r
    case Discount(_) => 0
    case HistoricalMinimum => 1
    case LowestTenth => 2
    case MatchesWatchlist => 3
    case TargetPriceReached => 4
    case DiscountThresholdReached => 5
  }

  ghost predicate InOrder(reasons: seq<Reason>) { forall i, j | 0 <= i < j < |reasons| :: Place(reasons[i]) < Place(reasons[j]) }

  // The deal lists exactly the reasons the offer has earned, in order, and is worth their rounded sum.
  ghost predicate Describes(nearest: Fx.Rounding, db: Db, watchlists: seq<Watchlist>, q: Query, o: Offer, p: Product, d: Deal) {
    && d.offer == o && d.productId == p.id && d.categoryId == p.categoryId && d.brandId == p.brandId
    && InOrder(d.reasons)
    && (exists first :: FirstOwn(watchlists, q, p, first) && forall r :: r in d.reasons <==> Earns(db, o, first, r))
    && d.score == Fx.Round2(nearest, TotalWorth(d.reasons))
  }

  // ---- the listed rows ----

  lemma OwnWatchlists(watchlists: seq<Watchlist>, q: Query)
    ensures forall w :: w in WatchlistsOf(watchlists, q) <==> w in watchlists && Own(q, w)
  {}

  lemma RowsOfProducts(db: Db, r: Row)
    requires Distinct(db.offers, OfferId()) && Distinct(db.products, ProductId())
    ensures r in JoinedOffers(db.offers, db.products) <==>
              r.offer in db.offers && r.product in db.products && r.product.id == r.offer.productId
  {
    JoinedRows(db.offers, db.products);
    if r.product in db.products && r.product.id == r.offer.productId {
      assert HasProductId(r.offer.productId)(r.product);
      SameKeySameRow(db.products, ProductId(), r.product, Find(db.products, HasProductId(r.offer.productId)).value);
    }
  }

  lemma SelectedIfEligible(db: Db, watchlists: seq<Watchlist>, q: Query, r: Row)
    requires Distinct(db.offers, OfferId()) && Distinct(db.products, ProductId())
    ensures r in Filter(JoinedOffers(db.offers, db.products), Selected(db.categories, WatchlistsOf(watchlists, q), q)) <==>
              Eligible(db, watchlists, q, r.offer, r.product)
  {
    var mine := WatchlistsOf(watchlists, q);
    OwnWatchlists(watchlists, q);
    RowsOfProducts(db, r);
    assert InCategory(db.categories, q.category, r.product) <==> InAskedCategory(db.categories, q, r.product);
    if r.product.id == r.offer.productId {
      PrefilteredIff(watchlists, mine, q, r);
    }
  }

  lemma PrefilteredIff(watchlists: seq<Watchlist>, mine: seq<Watchlist>, q: Query, r: Row)
    requires r.product.id == r.offer.productId && forall w :: w in mine <==> w in watchlists && Own(q, w)
    ensures mine != [] <==> exists w :: w in watchlists && Own(q, w)
    ensures Prefiltered(mine, r) <==> exists w :: w in watchlists && Own(q, w) && Touches(w, r.product)
  {
    if mine != [] { assert mine[0] in mine; }
  }

  lemma FirstAcceptingIsFirstOwn(watchlists: seq<Watchlist>, q: Query, r: Row)
    requires r.product.id == r.offer.productId
    ensures FirstOwn(watchlists, q, r.product, FirstAccepting(WatchlistsOf(watchlists, q), r))
  {
    var mine, accepting := WatchlistsOf(watchlists, q), Accepting(r);
    OwnWatchlists(watchlists, q);
    forall w ensures Accepts(w, r) <==> AsksFor(w, r.product) {}
    match FirstAccepting(mine, r)
    case None =>
      forall w | w in watchlists && Own(q, w) ensures !AsksFor(w, r.product) { assert !accepting(w); }
    case Some(v) =>
      var both := (w: Watchlist) => Own(q, w) && AsksFor(w, r.product);
      FindInFilter(watchlists, ActiveOf(q.userId.value), accepting, both);
      FindIsFirst(watchlists, both);
      var i: nat :| i < |watchlists| && watchlists[i] == v && both(watchlists[i]) && forall j | 0 <= j < i :: !both(watchlists[j]);
      assert FirstAt(watchlists, q, r.product, i) by {
        forall j | 0 <= j < i ensures !(Own(q, watchlists[j]) && AsksFor(watchlists[j], r.product)) { assert !both(watchlists[j]); }
      }
  }

  // ---- the points ----

  // The reasons are in order, they come before the given place, and are worth the score.
  ghost predicate Tallied(p: Points, place: nat) {
    && InOrder(p.reasons) && (forall r | r in p.reasons :: Place(r) < place)
    && p.score == TotalWorth(p.reasons)
  }

  lemma {:induction false} TotalOfMore(reasons: seq<Reason>, r: Reason)
    ensures TotalWorth(reasons + [r]) == TotalWorth(reasons) + Worth(r)
  {
    if reasons != [] {
      TotalOfMore(reasons[1..], r);
      assert (reasons + [r])[1..] == reasons[1..] + [r];
    }
  }

  lemma PlusTallies(p: Points, applies: bool, score: real, reason: Reason)
    requires Tallied(p, Place(reason)) && (applies ==> score == Worth(reason))
    ensures Tallied(Plus(p, applies, score, reason), Place(reason) + 1)
    ensures forall r :: r in Plus(p, applies, score, reason).reasons <==> r in p.reasons || (applies && r == reason)
  {
    if applies {
      TotalOfMore(p.reasons, reason);
      var more := p.reasons + [reason];
      forall i, j | 0 <= i < j < |more| ensures Place(more[i]) < Place(more[j]) {
        assert more[i] in p.reasons;
      }
    }
  }

  predicate EarnsByFlags(flags: Flags, o: Offer, first: Option<Watchlist>, r: Reason) {
    match r
    case Discount(x) => o.quote.discountPercent == Some(x) && x > 0.0
    case HistoricalMinimum => flags.isHistoricalMin
    case LowestTenth => flags.isLowest10
    case MatchesWatchlist => first.Some?
    case TargetPriceReached => first.Some? && Cheap(first.value, o)
    case DiscountThresholdReached => first.Some? && Reduced(first.value, o)
  }

  lemma OfferTally(o: Offer, flags: Flags)
    ensures Tallied(OfferPoints(o, flags), 3)
    ensures forall r :: r in OfferPoints(o, flags).reasons <==> EarnsByFlags(flags, o, None, r)
  {
    var discount := if o.quote.discountPercent.Some? then o.quote.discountPercent.value else 0.0;
    var worth := if discount < 60.0 then discount else 60.0;
    var start := Points(0.0, []);
    var discounted := Plus(start, discount > 0.0, worth, Discount(discount));
    var lowest := Plus(discounted, flags.isHistoricalMin, 35.0, HistoricalMinimum);
    PlusTallies(start, discount > 0.0, worth, Discount(discount));
    PlusTallies(discounted, flags.isHistoricalMin, 35.0, HistoricalMinimum);
    PlusTallies(lowest, flags.isLowest10, 25.0, LowestTenth);
  }

  lemma WatchlistTally(base: Points, w: Watchlist, o: Offer)
    requires Tallied(base, 3)
    ensures var p := WatchlistPoints(base, Some(w), o);
            && Tallied(p, 6)
            && forall r :: r in p.reasons <==>
                 || r in base.reasons || r == MatchesWatchlist
                 || (r == TargetPriceReached && Cheap(w, o)) || (r == DiscountThresholdReached && Reduced(w, o))
  {
    var matched := Plus(base, true, 20.0, MatchesWatchlist);
    var priced := Plus(matched, Cheap(w, o), 30.0, TargetPriceReached);
    assert WatchlistPoints(base, Some(w), o) == Plus(priced, Reduced(w, o), 20.0, DiscountThresholdReached);
    PlusTallies(base, true, 20.0, MatchesWatchlist);
    PlusTallies(matched, Cheap(w, o), 30.0, TargetPriceReached);
    PlusTallies(priced, Reduced(w, o), 20.0, DiscountThresholdReached);
  }

  lemma PointsTally(o: Offer, flags: Flags, first: Option<Watchlist>)
    ensures var p := WatchlistPoints(OfferPoints(o, flags), first, o);
            Tallied(p, 6) && forall r :: r in p.reasons <==> EarnsByFlags(flags, o, first, r)
  {
    OfferTally(o, flags);
    if first.Some? {
      WatchlistTally(OfferPoints(o, flags), first.value, o);
    }
  }

  lemma FlagsEarn(db: Db, o: Offer, first: Option<Watchlist>, r: Reason)
    requires Coherent(db) && o in db.offers
    ensures EarnsByFlags(OfferFlags(db.analytics, o), o, first, r) <==> Earns(db, o, first, r)
  {
    FlagsMean(db, o);
    LowestTenthFlagMeans(db, o);
  }

  lemma PointsEarn(db: Db, o: Offer, first: Option<Watchlist>)
    requires Coherent(db) && o in db.offers
    ensures var p := WatchlistPoints(OfferPoints(o, OfferFlags(db.analytics, o)), first, o);
            InOrder(p.reasons) && p.score == TotalWorth(p.reasons) && forall r :: r in p.reasons <==> Earns(db, o, first, r)
  {
    var flags := OfferFlags(db.analytics, o);
    PointsTally(o, flags, first);
    forall r ensures EarnsByFlags(flags, o, first, r) <==> Earns(db, o, first, r) {
      FlagsEarn(db, o, first, r);
    }
  }

  lemma DealDescribes(nearest: Fx.Rounding, db: Db, watchlists: seq<Watchlist>, q: Query, r: Row)
    requires Coherent(db) && r.offer in db.offers && r.product.id == r.offer.productId
    ensures Describes(nearest, db, watchlists, q, r.offer, r.product,
                      DealOf(nearest, db.analytics, WatchlistsOf(watchlists, q))(r))
  {
    var first := FirstAccepting(WatchlistsOf(watchlists, q), r);
    FirstAcceptingIsFirstOwn(watchlists, q, r);
    PointsEarn(db, r.offer, first);
  }

  // ---- there is one such deal ----

  lemma OneFirst(watchlists: seq<Watchlist>, q: Query, p: Product, a: Option<Watchlist>, b: Option<Watchlist>)
    requires FirstOwn(watchlists, q, p, a) && FirstOwn(watchlists, q, p, b)
    ensures a == b
  {}

  lemma OrderedTail(a: seq<Reason>)
    requires a != [] && InOrder(a)
    ensures InOrder(a[1..]) && a[0] !in a[1..] && forall r :: r in a[1..] <==> r in a && r != a[0]
  {
    assert a == [a[0]] + a[1..];
    forall r | r in a[1..] ensures Place(a[0]) < Place(r) {
      var i :| 0 <= i < |a[1..]| && a[1..][i] == r;
      assert Place(a[0]) < Place(a[i + 1]);
    }
  }

  lemma FirstPlace(a: seq<Reason>, r: Reason)
    requires InOrder(a) && r in a
    ensures r == a[0] || Place(a[0]) < Place(r)
  {
    var i :| 0 <= i < |a| && a[i] == r;
    if i > 0 { assert Place(a[0]) < Place(a[i]); }
  }

  lemma SameEmptiness(a: seq<Reason>, b: seq<Reason>)
    requires forall r :: r in a <==> r in b
    ensures a == [] <==> b == []
  {
    if a != [] { assert a[0] in a; }
    if b != [] { assert b[0] in b; }
  }

  lemma {:induction false} OrderedUnique(a: seq<Reason>, b: seq<Reason>)
    requires InOrder(a) && InOrder(b) && forall r :: r in a <==> r in b
    ensures a == b
  {
    SameEmptiness(a, b);
    if a != [] {
      FirstPlace(a, b[0]);
      FirstPlace(b, a[0]);
      OrderedTail(a);
      OrderedTail(b);
      OrderedUnique(a[1..], b[1..]);
      assert a == [a[0]] + a[1..] && b == [b[0]] + b[1..];
    }
  }

  lemma OneDescribed(nearest: Fx.Rounding, db: Db, watchlists: seq<Watchlist>, q: Query, o: Offer, p: Product, d: Deal, e: Deal)
    requires Describes(nearest, db, watchlists, q, o, p, d) && Describes(nearest, db, watchlists, q, o, p, e)
    ensures d == e
  {
    var a :| FirstOwn(watchlists, q, p, a) && forall r :: r in d.reasons <==> Earns(db, o, a, r);
    var b :| FirstOwn(watchlists, q, p, b) && forall r :: r in e.reasons <==> Earns(db, o, b, r);
    OneFirst(watchlists, q, p, a, b);
    OrderedUnique(d.reasons, e.reasons);
  }

  // ---- the listing ----

  lemma InAllDeals(nearest: Fx.Rounding, db: Db, watchlists: seq<Watchlist>, q: Query, d: Deal)
    ensures var mine := WatchlistsOf(watchlists, q);
            d in AllDeals(nearest, db, watchlists, q) <==>
              d.score > 0.0 && exists r :: r in Filter(JoinedOffers(db.offers, db.products), Selected(db.categories, mine, q))
                                           && DealOf(nearest, db.analytics, mine)(r) == d
  {
    var mine := WatchlistsOf(watchlists, q);
    var rows := Filter(JoinedOffers(db.offers, db.products), Selected(db.categories, mine, q));
    var dealOf := DealOf(nearest, db.analytics, mine);
    SortContents(Filter(MapSeq(rows, dealOf), Scoring()), BestFirst());
    if d in MapSeq(rows, dealOf) {
      var i :| 0 <= i < |rows| && MapSeq(rows, dealOf)[i] == d;
      assert rows[i] in rows;
    }
    forall r | r in rows && dealOf(r) == d ensures d in MapSeq(rows, dealOf) {
      var i :| 0 <= i < |rows| && rows[i] == r;
      assert MapSeq(rows, dealOf)[i] == d;
    }
  }

  // For every query the deals listed are exactly those of the eligible offers that score above zero.
  lemma ListingIsExact(nearest: Fx.Rounding, db: Db, watchlists: seq<Watchlist>, q: Query, d: Deal)
    requires Coherent(db) && Distinct(db.products, ProductId())
    ensures d in AllDeals(nearest, db, watchlists, q) <==>
              d.score > 0.0 && exists o, p :: Eligible(db, watchlists, q, o, p) && Describes(nearest, db, watchlists, q, o, p, d)
  {
    var mine := WatchlistsOf(watchlists, q);
    var rows := Filter(JoinedOffers(db.offers, db.products), Selected(db.categories, mine, q));
    var dealOf := DealOf(nearest, db.analytics, mine);
    InAllDeals(nearest, db, watchlists, q, d);
    if r :| r in rows && dealOf(r) == d {
      SelectedIfEligible(db, watchlists, q, r);
      DealDescribes(nearest, db, watchlists, q, r);
    }
    forall o, p | Eligible(db, watchlists, q, o, p) && Describes(nearest, db, watchlists, q, o, p, d)
      ensures exists r :: r in rows && dealOf(r) == d
    {
      var r := Row(o, p);
      SelectedIfEligible(db, watchlists, q, r);
      DealDescribes(nearest, db, watchlists, q, r);
      OneDescribed(nearest, db, watchlists, q, o, p, d, dealOf(r));
      assert r in rows;
    }
  }

  // Every eligible offer has one such deal, whether it scores or not.
  lemma EligibleIsDescribed(nearest: Fx.Rounding, db: Db, watchlists: seq<Watchlist>, q: Query, o: Offer, p: Product)
    returns (d: Deal)
    requires Coherent(db) && Distinct(db.products, ProductId()) && Eligible(db, watchlists, q, o, p)
    ensures Describes(nearest, db, watchlists, q, o, p, d)
    ensures d in AllDeals(nearest, db, watchlists, q) <==> d.score > 0.0
    ensures forall e :: Describes(nearest, db, watchlists, q, o, p, e) ==> e == d
  {
    d := DealOf(nearest, db.analytics, WatchlistsOf(watchlists, q))(Row(o, p));
    DealDescribes(nearest, db, watchlists, q, Row(o, p));
    ListingIsExact(nearest, db, watchlists, q, d);
    forall e | Describes(nearest, db, watchlists, q, o, p, e) ensures e == d {
      OneDescribed(nearest, db, watchlists, q, o, p, d, e);
    }
  }
}
