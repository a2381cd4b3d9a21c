/** The deal listing (domains/deals/service.py): a SQL prefilter, an exact matcher that scores, a
    stable sort by score and pages cut from the result. */
module Deals {
  import opened Prelude
  import opened Tables
  import opened Offers
  import Fx
  import N = Notifications

  datatype Reason = Discount(percent: real) | HistoricalMinimum | LowestTenth
                  | MatchesWatchlist | TargetPriceReached | DiscountThresholdReached

  datatype Deal = Deal(offer: Offer, productId: Id, categoryId: Id, brandId: Option<Id>,
                       score: real, reasons: seq<Reason>)

  // An offer joined with its product.
  datatype Row = Row(offer: Offer, product: Product)

  // ---- the two filters ----

  // Every criterion the watchlist has agrees.
  predicate Accepts(w: Watchlist, r: Row) {
    && N.Agrees(w.productId, Some(r.offer.productId))
    && N.Agrees(w.categoryId, Some(r.product.categoryId))
    && N.Agrees(w.brandId, r.product.brandId)
  }

  // Some criterion of some watchlist agrees; without any criterion nothing passes.
  predicate Prefiltered(watchlists: seq<Watchlist>, r: Row) {
    exists w | w in watchlists ::
      || (w.productId.Some? && w.productId == Some(r.offer.productId))
      || (w.categoryId.Some? && w.categoryId == Some(r.product.categoryId))
      || (w.brandId.Some? && w.brandId == r.product.brandId)
  }

  predicate HasCriterion(w: Watchlist) { w.productId.Some? || w.categoryId.Some? || w.brandId.Some? }

  // The prefilter passes all that the matcher accepts for a watchlist that has a criterion.
  lemma PrefilterKeepsAccepted(watchlists: seq<Watchlist>, w: Watchlist, r: Row)
    requires w in watchlists && HasCriterion(w) && Accepts(w, r)
    ensures Prefiltered(watchlists, r)
  {}

  function MaxId(watchlists: seq<Watchlist>): Id {
    if watchlists == [] then 0
    else
      var w, rest := watchlists[0], MaxId(watchlists[1..]);
      var p := if w.productId.Some? && w.productId.value > rest then w.productId.value else rest;
      if w.categoryId.Some? && w.categoryId.value > p then w.categoryId.value else p
  }

  lemma {:induction false} MaxIdBounds(watchlists: seq<Watchlist>)
    ensures forall w | w in watchlists ::
              && (w.productId.Some? ==> w.productId.value <= MaxId(watchlists))
              && (w.categoryId.Some? ==> w.categoryId.value <= MaxId(watchlists))
  {
    if watchlists != [] {
      MaxIdBounds(watchlists[1..]);
      assert watchlists == [watchlists[0]] + watchlists[1..];
    }
  }

  // A row no watchlist has a criterion for.
  function Unwanted(watchlists: seq<Watchlist>, r: Row): Row {
    var id := MaxId(watchlists) + 1;
    Row(r.offer.(productId := id), r.product.(id := id, categoryId := id, brandId := None))
  }

  ghost predicate LosesNothing(watchlists: seq<Watchlist>) {
    forall r, w | w in watchlists && Accepts(w, r) :: Prefiltered(watchlists, r)
  }

  // The prefilter loses nothing the matcher accepts exactly if every watchlist has a criterion:
  // one without any accepts every offer, and the prefilter does not pass them all.
  lemma PrefilterLosesNothingIff(watchlists: seq<Watchlist>, anyRow: Row)
    ensures LosesNothing(watchlists) <==> forall w | w in watchlists :: HasCriterion(w)
  {
    forall w | w in watchlists && !HasCriterion(w)
      ensures !LosesNothing(watchlists)
    {
      var r := Unwanted(watchlists, anyRow);
      MaxIdBounds(watchlists);
      assert Accepts(w, r) && !Prefiltered(watchlists, r);
    }
    if forall w | w in watchlists :: HasCriterion(w) {
      forall r, w | w in watchlists && Accepts(w, r) ensures Prefiltered(watchlists, r) {
        PrefilterKeepsAccepted(watchlists, w, r);
      }
    }
  }

  // ---- scoring ----

  function Accepting(r: Row): Watchlist -> bool { (w: Watchlist) => Accepts(w, r) }

  function FirstAccepting(watchlists: seq<Watchlist>, r: Row): Option<Watchlist> { Find(watchlists, Accepting(r)) }

  datatype Points = Points(score: real, reasons: seq<Reason>)

  function Plus(p: Points, applies: bool, score: real, reason: Reason): Points {
    if applies then Points(p.score + score, p.reasons + [reason]) else p
  }

  function OfferPoints(o: Offer, flags: Flags): Points {
    var discount := if o.quote.discountPercent.Some? then o.quote.discountPercent.value else 0.0;
    var p := Plus(Points(0.0, []), discount > 0.0, if discount < 60.0 then discount else 60.0, Discount(discount));
    Plus(Plus(p, flags.isHistoricalMin, 35.0, HistoricalMinimum), flags.isLowest10, 25.0, LowestTenth)
  }

  // Only the first accepting watchlist counts.
  function WatchlistPoints(p: Points, w: Option<Watchlist>, o: Offer): Points {
    if w.None? then p
    else
      var matched := Plus(p, true, 20.0, MatchesWatchlist);
      var target := w.value.targetPrice;
      var priced := Plus(matched, target.Some? && o.quote.eurPrice <= target.value, 30.0, TargetPriceReached);
      var threshold := w.value.discountThreshold;
      Plus(priced, threshold.Some? && o.quote.discountPercent.Some? && o.quote.discountPercent.value >= threshold.value,
           20.0, DiscountThresholdReached)
  }

  function DealOf(nearest: Fx.Rounding, rows: seq<Analytics>, watchlists: seq<Watchlist>): Row -> Deal {
    (r: Row) =>
      var p := WatchlistPoints(OfferPoints(r.offer, OfferFlags(rows, r.offer)), FirstAccepting(watchlists, r), r.offer);
      Deal(r.offer, r.product.id, r.product.categoryId, r.product.brandId, Fx.Round2(nearest, p.score), p.reasons)
  }

  method BuildDeal(session: Session, nearest: Fx.Rounding, r: Row, watchlists: seq<Watchlist>) returns (deal: Deal)
    ensures deal == DealOf(nearest, session.analytics, watchlists)(r)
  {
    var points := OfferPoints(r.offer, OfferFlags(session.analytics, r.offer));
    var i := 0;
    var first: Option<Watchlist> := None;
    while i < |watchlists|
      invariant i <= |watchlists|
      invariant first.None?
      invariant FirstAccepting(watchlists, r) == FirstAccepting(watchlists[i..], r)
    {
      assert watchlists[i..][1..] == watchlists[i + 1..];
      if Accepts(watchlists[i], r) {
        first := Some(watchlists[i]);
        break;
      }
      i := i + 1;
    }
    assert watchlists[|watchlists|..] == [];
    points := WatchlistPoints(points, first, r.offer);
    deal := Deal(r.offer, r.product.id, r.product.categoryId, r.product.brandId,
                 Fx.Round2(nearest, points.score), points.reasons);
  }

  // An accepted offer always scores at least the twenty points of the match, less the rounding.
  lemma AcceptedScores(nearest: Fx.Rounding, rows: seq<Analytics>, watchlists: seq<Watchlist>, w: Watchlist, r: Row)
    requires Fx.RoundsToNearest(nearest) && w in watchlists && Accepts(w, r)
    ensures DealOf(nearest, rows, watchlists)(r).score > 0.0
    ensures MatchesWatchlist in DealOf(nearest, rows, watchlists)(r).reasons
  {
    assert Accepting(r)(w);
    var base := OfferPoints(r.offer, OfferFlags(rows, r.offer));
    var p := WatchlistPoints(base, FirstAccepting(watchlists, r), r.offer);
    assert base.score >= 0.0 && p.score >= 20.0;
    Fx.Round2Error(nearest, p.score);
  }

  // ---- the listing ----

  datatype Query = Query(userId: Option<Id>, category: Option<string>, personalized: bool, maxPrice: Option<real>)

  function JoinedOffers(offers: seq<Offer>, products: seq<Product>): seq<Row> {
    if offers == [] then []
    else
      match Find(products, HasProductId(offers[0].productId))
      case None => JoinedOffers(offers[1..], products)
      case Some(p) => [Row(offers[0], p)] + JoinedOffers(offers[1..], products)
  }

  predicate InCategory(categories: seq<Category>, category: Option<string>, p: Product) {
    category.Some? && category.value != "" ==>
      exists c | c in categories :: c.id == p.categoryId && c.slug == category.value
  }

  function ActiveOf(userId: Id): Watchlist -> bool { (w: Watchlist) => w.userId == userId && w.active && !w.archived }

  function WatchlistsOf(watchlists: seq<Watchlist>, q: Query): seq<Watchlist> {
    if q.personalized && q.userId.Some? then Filter(watchlists, ActiveOf(q.userId.value)) else []
  }

  function Selected(categories: seq<Category>, watchlists: seq<Watchlist>, q: Query): Row -> bool {
    (r: Row) =>
      && N.Available(r.offer)
      && InCategory(categories, q.category, r.product)
      && (q.maxPrice.Some? ==> r.offer.quote.eurPrice <= q.maxPrice.value)
      && (watchlists != [] ==> Prefiltered(watchlists, r))
  }

  function Scoring(): Deal -> bool { (d: Deal) => d.score > 0.0 }

  function BestFirst(): (Deal, Deal) -> bool { (a: Deal, b: Deal) => a.score >= b.score }

  function AllDeals(nearest: Fx.Rounding, db: Db, watchlists: seq<Watchlist>, q: Query): seq<Deal> {
    var mine := WatchlistsOf(watchlists, q);
    var rows := Filter(JoinedOffers(db.offers, db.products), Selected(db.categories, mine, q));
    Sort(Filter(MapSeq(rows, DealOf(nearest, db.analytics, mine)), Scoring()), BestFirst())
  }

  function Page(deals: seq<Deal>, limit: nat, offset: nat): seq<Deal> {
    var from := if offset < |deals| then offset else |deals|;
    var to := if offset + limit < |deals| then offset + limit else |deals|;
    deals[from..to]
  }

  lemma OneMoreRow(rows: seq<Row>, dealOf: Row -> Deal, i: nat)
    requires i < |rows|
    ensures MapSeq(rows[..i + 1], dealOf) == MapSeq(rows[..i], dealOf) + [dealOf(rows[i])]
  {}

  lemma OneMoreDeal(rows: seq<Row>, dealOf: Row -> Deal, i: nat)
    requires i < |rows|
    ensures Filter(MapSeq(rows[..i + 1], dealOf), Scoring()) ==
              Filter(MapSeq(rows[..i], dealOf), Scoring()) + if dealOf(rows[i]).score > 0.0 then [dealOf(rows[i])] else []
  {
    var deals, deal := MapSeq(rows[..i], dealOf), dealOf(rows[i]);
    OneMoreRow(rows, dealOf, i);
    FilterLast(deals, deal, Scoring());
  }

  method ScoreRows(session: Session, nearest: Fx.Rounding, rows: seq<Row>, mine: seq<Watchlist>)
    returns (deals: seq<Deal>)
    ensures deals == Filter(MapSeq(rows, DealOf(nearest, session.analytics, mine)), Scoring())
  {
    ghost var dealOf := DealOf(nearest, session.analytics, mine);
    deals := [];
    for i := 0 to |rows|
      invariant deals == Filter(MapSeq(rows[..i], dealOf), Scoring())
    {
      OneMoreDeal(rows, dealOf, i);
      var deal := BuildDeal(session, nearest, rows[i], mine);
      if deal.score > 0.0 {
        deals := deals + [deal];
      }
    }
    assert rows[..|rows|] == rows;
  }

  method ListDeals(session: Session, nearest: Fx.Rounding, q: Query, limit: nat, offset: nat)
    returns (page: seq<Deal>, total: nat)
    ensures var all := AllDeals(nearest, session.State(), session.watchlists, q);
            page == Page(all, limit, offset) && total == |all|
  {
    var mine := WatchlistsOf(session.watchlists, q);
    var rows := Filter(JoinedOffers(session.offers, session.products), Selected(session.categories, mine, q));
    var deals := ScoreRows(session, nearest, rows, mine);
    deals := Sort(deals, BestFirst());
    page, total := Page(deals, limit, offset), |deals|;
  }

  // ---- complete and ordered ----

  function OfferIdOf(): Deal -> Id { (d: Deal) => d.offer.id }

  function RowId(): Row -> Id { (r: Row) => r.offer.id }

  lemma {:induction false} JoinedRows(offers: seq<Offer>, products: seq<Product>)
    requires Distinct(offers, OfferId())
    ensures Distinct(JoinedOffers(offers, products), RowId())
    ensures forall r :: r in JoinedOffers(offers, products) <==>
                          r.offer in offers && Find(products, HasProductId(r.offer.productId)) == Some(r.product)
  {
    if offers != [] {
      var o, rest := offers[0], offers[1..];
      forall i, j | 0 <= i < j < |rest| ensures OfferId()(rest[i]) != OfferId()(rest[j]) {
        assert rest[i] == offers[i + 1] && rest[j] == offers[j + 1];
      }
      JoinedRows(rest, products);
      assert offers == [o] + rest;
      forall x | x in rest ensures x.id != o.id {
        var i :| 0 <= i < |rest| && rest[i] == x;
        assert OfferId()(offers[0]) != OfferId()(offers[i + 1]);
      }
      forall k | 0 <= k < |JoinedOffers(rest, products)| ensures RowId()(JoinedOffers(rest, products)[k]) != o.id {
        assert JoinedOffers(rest, products)[k] in JoinedOffers(rest, products);
      }
    }
  }

  lemma BestFirstIsTotal()
    ensures TotalPreorder(BestFirst())
  {}

  // No offer is listed twice, and scores descend.
  lemma DealsDistinctAndSorted(nearest: Fx.Rounding, db: Db, watchlists: seq<Watchlist>, q: Query)
    requires Distinct(db.offers, OfferId())
    ensures Distinct(AllDeals(nearest, db, watchlists, q), OfferIdOf())
    ensures var all := AllDeals(nearest, db, watchlists, q);
            forall i, j | 0 <= i < j < |all| :: all[i].score >= all[j].score
  {
    var mine := WatchlistsOf(watchlists, q);
    var joined, selected := JoinedOffers(db.offers, db.products), Selected(db.categories, mine, q);
    var rows := Filter(joined, selected);
    var deals := MapSeq(rows, DealOf(nearest, db.analytics, mine));
    JoinedRows(db.offers, db.products);
    DistinctFilter(joined, selected, RowId());
    forall i, j | 0 <= i < j < |deals| ensures OfferIdOf()(deals[i]) != OfferIdOf()(deals[j]) {
      assert RowId()(rows[i]) != RowId()(rows[j]);
    }
    var scoring := Filter(deals, Scoring());
    DistinctFilter(deals, Scoring(), OfferIdOf());
    SortContents(scoring, BestFirst());
    DistinctPermuted(scoring, Sort(scoring, BestFirst()), OfferIdOf());
    BestFirstIsTotal();
    SortSorted(scoring, BestFirst());
    var all := AllDeals(nearest, db, watchlists, q);
    forall i, j | 0 <= i < j < |all| ensures all[i].score >= all[j].score {
      assert BestFirst()(all[i], all[j]);
    }
  }

  function Scores(score: real): Deal -> bool { (d: Deal) => d.score == score }

  // Deals of one score come in the order of their offers.
  lemma TiesKeepOrder(nearest: Fx.Rounding, db: Db, watchlists: seq<Watchlist>, q: Query, score: real)
    ensures var mine := WatchlistsOf(watchlists, q);
            var rows := Filter(JoinedOffers(db.offers, db.products), Selected(db.categories, mine, q));
            Filter(AllDeals(nearest, db, watchlists, q), Scores(score)) ==
              if score > 0.0 then Filter(MapSeq(rows, DealOf(nearest, db.analytics, mine)), Scores(score)) else []
  {
    var mine := WatchlistsOf(watchlists, q);
    var rows := Filter(JoinedOffers(db.offers, db.products), Selected(db.categories, mine, q));
    var deals := MapSeq(rows, DealOf(nearest, db.analytics, mine));
    SortStable(Filter(deals, Scoring()), BestFirst(), Scores(score));
    if score > 0.0 {
      FilterFilter(deals, Scoring(), Scores(score), Scores(score));
    } else {
      FilterNone(Filter(deals, Scoring()), Scores(score));
    }
  }

  // Without category and price filter, every available offer some watchlist of the user accepts
  // is listed, provided that watchlist has a criterion.
  lemma AcceptedIsListed(nearest: Fx.Rounding, db: Db, watchlists: seq<Watchlist>, userId: Id, w: Watchlist, r: Row)
    requires Fx.RoundsToNearest(nearest) && Distinct(db.offers, OfferId())
    requires w in watchlists && w.userId == userId && w.active && !w.archived && HasCriterion(w)
    requires r.offer in db.offers && Find(db.products, HasProductId(r.offer.productId)) == Some(r.product)
    requires N.Available(r.offer) && Accepts(w, r)
    ensures exists d :: d in AllDeals(nearest, db, watchlists, Query(Some(userId), None, true, None)) && d.offer == r.offer
  {
    var q := Query(Some(userId), None, true, None);
    var mine := WatchlistsOf(watchlists, q);
    var rows := Filter(JoinedOffers(db.offers, db.products), Selected(db.categories, mine, q));
    var dealOf := DealOf(nearest, db.analytics, mine);
    assert w in mine;
    PrefilterKeepsAccepted(mine, w, r);
    AcceptedScores(nearest, db.analytics, mine, w, r);
    JoinedRows(db.offers, db.products);
    assert r in rows;
    var i :| 0 <= i < |rows| && rows[i] == r;
    var deals := MapSeq(rows, dealOf);
    assert deals[i] == dealOf(r) && deals[i] in deals;
    SortContents(Filter(deals, Scoring()), BestFirst());
    assert dealOf(r) in AllDeals(nearest, db, watchlists, q);
  }

  // Pages read at offsets 0, limit, 2 * limit, ... show the deal at position i once.
  ghost predicate ShownOnce(deals: seq<Deal>, limit: nat, i: nat)
    requires limit >= 1
  {
    && i < |deals|
    && forall page: nat :: deals[i] in Page(deals, limit, page * limit) <==> page == i / limit
  }

  // The deal at position i is the only one of the offer.
  ghost predicate OnlyDealOf(deals: seq<Deal>, o: Offer, i: nat) {
    && i < |deals| && deals[i].offer == o
    && forall j | 0 <= j < |deals| && deals[j].offer.id == o.id :: j == i
  }

  // Reading pages at offsets 0, limit, 2 * limit, ... shows the deal at position i on page
  // i / limit and on no other.
  lemma OnExactlyOnePage(deals: seq<Deal>, limit: nat, i: nat, page: nat)
    requires limit >= 1 && i < |deals| && Distinct(deals, OfferIdOf())
    ensures deals[i] in Page(deals, limit, page * limit) <==> page == i / limit
  {
    var shown := Page(deals, limit, page * limit);
    PageOfPosition(i, limit, page);
    var from := if page * limit < |deals| then page * limit else |deals|;
    if page == i / limit {
      assert shown[i - from] == deals[i];
    } else {
      forall k | 0 <= k < |shown| ensures shown[k] != deals[i] {
        assert shown[k] == deals[from + k];
        assert from + k < i ==> OfferIdOf()(deals[from + k]) != OfferIdOf()(deals[i]);
        assert i < from + k ==> OfferIdOf()(deals[i]) != OfferIdOf()(deals[from + k]);
      }
    }
  }

  lemma OnOnePage(deals: seq<Deal>, limit: nat, i: nat)
    requires limit >= 1 && i < |deals| && Distinct(deals, OfferIdOf())
    ensures ShownOnce(deals, limit, i)
  {
    forall page: nat ensures deals[i] in Page(deals, limit, page * limit) <==> page == i / limit {
      OnExactlyOnePage(deals, limit, i, page);
    }
  }

  lemma PageOfPosition(i: nat, limit: nat, page: nat)
    requires limit >= 1
    ensures page == i / limit <==> page * limit <= i < page * limit + limit
  {
    var q := i / limit;
    assert limit * q <= i < limit * (q + 1);
    if page * limit <= i < page * limit + limit {
      assert limit * (page + 1) == page * limit + limit;
      QuotientIs(i, limit, page);
    }
    if page == q {
      assert limit * (page + 1) == page * limit + limit;
    }
  }

  // So each accepted offer is on exactly one page.
  lemma PersonalizedDealsComplete(nearest: Fx.Rounding, db: Db, watchlists: seq<Watchlist>, userId: Id,
                                  w: Watchlist, r: Row, limit: nat)
    returns (i: nat)
    requires Fx.RoundsToNearest(nearest) && Distinct(db.offers, OfferId()) && limit >= 1
    requires w in watchlists && w.userId == userId && w.active && !w.archived && HasCriterion(w)
    requires r.offer in db.offers && Find(db.products, HasProductId(r.offer.productId)) == Some(r.product)
    requires N.Available(r.offer) && Accepts(w, r)
    ensures var all := AllDeals(nearest, db, watchlists, Query(Some(userId), None, true, None));
            OnlyDealOf(all, r.offer, i) && ShownOnce(all, limit, i)
  {
    var q := Query(Some(userId), None, true, None);
    var all := AllDeals(nearest, db, watchlists, q);
    DealsDistinctAndSorted(nearest, db, watchlists, q);
    AcceptedIsListed(nearest, db, watchlists, userId, w, r);
    i := PositionOf(all, r.offer);
    OnOnePage(all, limit, i);
  }

  lemma PositionOf(all: seq<Deal>, o: Offer) returns (i: nat)
    requires Distinct(all, OfferIdOf()) && exists d :: d in all && d.offer == o
    ensures OnlyDealOf(all, o, i)
  {
    var d :| d in all && d.offer == o;
    i :| 0 <= i < |all| && all[i] == d;
    forall j | 0 <= j < |all| && j != i ensures all[j].offer.id != o.id {
      assert i < j ==> OfferIdOf()(all[i]) != OfferIdOf()(all[j]);
      assert j < i ==> OfferIdOf()(all[j]) != OfferIdOf()(all[i]);
    }
  }
}
