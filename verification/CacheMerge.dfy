/** What a merge of two products does to the agreement of the analytics cache with the price log:
    the rows follow the offers, unless both products have rows. */
module CacheMerge {
  import opened Prelude
  import opened Tables
  import opened Statistics
  import opened Offers
  import opened Cache
  import opened CacheMeaning
  import opened Merge

  ghost predicate HasRow(rows: seq<Analytics>, productId: Id) { exists a :: a in rows && a.productId == productId }

  // The offers, the log and the cache after the source was merged into the target.
  ghost predicate RowsMerged(db: Db, after: Db, source: Id, target: Id) {
    && source != target
    && Redirected(db.offers, after.offers, OfferRefers(source), OfferTo(target))
    && Redirected(db.analytics, after.analytics, AnalyticsRefers(source), AnalyticsTo(target))
    && after.snapshots == db.snapshots && after.nextId == db.nextId
  }

  // ---- both products have rows ----

  lemma OfferHasRow(db: Db, o: Offer)
    requires Coherent(db) && o in db.offers
    ensures HasRow(db.analytics, o.productId)
  {
    ExactlyOneRow(db, o, None);
  }

  lemma PricedLogHasOffer(db: Db, productId: Id, storeId: Option<Id>) returns (o: Offer)
    requires Log(Keys(db.offers), db.snapshots, productId, storeId) != []
    ensures o in db.offers && o.productId == productId
  {
    var log := Log(Keys(db.offers), db.snapshots, productId, storeId);
    assert Prices(log)[0] in Prices(log);
    LogHoldsBelonging(db, productId, storeId, Prices(log)[0]);
    var s :| Belongs(db, s, productId, storeId) && s.quote.eurPrice == Prices(log)[0];
    o :| o in db.offers && o.id == s.offerId && o.productId == productId;
  }

  // A product with any row has an all-stores row: store rows are only written after an offer.
  lemma AnyRowMeansAllStoresRow(db: Db, a: Analytics) returns (all: Analytics)
    requires Coherent(db) && a in db.analytics
    ensures all in db.analytics && AnalyticsKey()(all) == (a.productId, None)
  {
    if a.storeId.None? {
      all := a;
    } else {
      assert RowAgrees(Keys(db.offers), db.snapshots, a);
      var o := PricedLogHasOffer(db, a.productId, a.storeId);
      ExactlyOneRow(db, o, None);
      all :| all in db.analytics && AnalyticsKey()(all) == (o.productId, None);
    }
  }

  lemma BothRowsClash(db: Db, after: Db, source: Id, target: Id)
    requires Coherent(db) && RowsMerged(db, after, source, target)
    requires HasRow(db.analytics, source) && HasRow(db.analytics, target)
    ensures !Coherent(after)
  {
    var a :| a in db.analytics && a.productId == source;
    var b :| b in db.analytics && b.productId == target;
    var x := AnyRowMeansAllStoresRow(db, a);
    var y := AnyRowMeansAllStoresRow(db, b);
    RedirectedKeysIff(db.analytics, after.analytics, source, target);
  }

  // ---- the source has none ----

  lemma NothingToMove(db: Db, after: Db, source: Id, target: Id)
    requires Coherent(db) && RowsMerged(db, after, source, target) && !HasRow(db.analytics, source)
    ensures Coherent(after)
  {
    forall i | 0 <= i < |db.offers| ensures after.offers[i] == db.offers[i] {
      OfferHasRow(db, db.offers[i]);
    }
    forall i | 0 <= i < |db.analytics| ensures after.analytics[i] == db.analytics[i] {
      assert db.analytics[i] in db.analytics;
    }
    assert after.offers == db.offers && after.analytics == db.analytics;
  }

  // ---- the target has none ----

  function Renamed(source: Id, target: Id, productId: Id): Id { if productId == source then target else productId }

  lemma RenamedKeys(offers: seq<Offer>, after: seq<Offer>, source: Id, target: Id)
    requires Redirected(offers, after, OfferRefers(source), OfferTo(target))
    ensures Ids(after) == Ids(offers)
    ensures forall k | k in Keys(offers) :: OfferKey(k.offerId, Renamed(source, target, k.productId), k.storeId) in Keys(after)
    ensures forall k | k in Keys(after) ::
              exists j :: j in Keys(offers) && k == OfferKey(j.offerId, Renamed(source, target, j.productId), j.storeId)
  {
    forall i | 0 <= i < |offers|
      ensures after[i].id == offers[i].id
      ensures KeyOf(after[i]) == OfferKey(offers[i].id, Renamed(source, target, offers[i].productId), offers[i].storeId)
    {}
    forall x | x in Ids(offers) ensures x in Ids(after) {
      var i :| 0 <= i < |offers| && offers[i].id == x;
      assert after[i] in after;
    }
    forall x | x in Ids(after) ensures x in Ids(offers) {
      var i :| 0 <= i < |after| && after[i].id == x;
      assert offers[i] in offers;
    }
    forall k | k in Keys(offers)
      ensures OfferKey(k.offerId, Renamed(source, target, k.productId), k.storeId) in Keys(after)
    {
      var i :| 0 <= i < |offers| && KeyOf(offers[i]) == k;
      assert after[i] in after;
    }
    forall k | k in Keys(after)
      ensures exists j :: j in Keys(offers) && k == OfferKey(j.offerId, Renamed(source, target, j.productId), j.storeId)
    {
      var i :| 0 <= i < |after| && KeyOf(after[i]) == k;
      assert KeyOf(offers[i]) in Keys(offers);
    }
  }

  // The log of a product moves with it when the target has no offers of its own.
  lemma LogMoves(keys: set<OfferKey>, after: set<OfferKey>, snapshots: seq<Snapshot>, source: Id, target: Id,
                 productId: Id, storeId: Option<Id>)
    requires forall k | k in keys :: k.productId != target
    requires productId != target
    requires forall k | k in keys :: OfferKey(k.offerId, Renamed(source, target, k.productId), k.storeId) in after
    requires forall k | k in after ::
               exists j :: j in keys && k == OfferKey(j.offerId, Renamed(source, target, j.productId), j.storeId)
    ensures Log(after, snapshots, Renamed(source, target, productId), storeId) == Log(keys, snapshots, productId, storeId)
  {
    var p, q := Joined(after, Renamed(source, target, productId), storeId), Joined(keys, productId, storeId);
    forall s | s in snapshots ensures p(s) == q(s) {
      if q(s) {
        var k :| k in keys && k.offerId == s.offerId && k.productId == productId && OfStore(k, storeId);
        assert OfferKey(k.offerId, Renamed(source, target, k.productId), k.storeId) in after;
      }
    }
    FilterSame(snapshots, p, q);
  }

  lemma RowsMove(db: Db, after: Db, source: Id, target: Id)
    requires Coherent(db) && RowsMerged(db, after, source, target) && !HasRow(db.analytics, target)
    ensures RowsAgreeExcept(Keys(after.offers), after.snapshots, after.analytics, {})
  {
    RenamedKeys(db.offers, after.offers, source, target);
    RedirectedKeysIff(db.analytics, after.analytics, source, target);
    forall k | k in Keys(db.offers) ensures k.productId != target {
      var o :| o in db.offers && KeyOf(o) == k;
      OfferHasRow(db, o);
    }
    forall a | a in after.analytics ensures RowAgrees(Keys(after.offers), after.snapshots, a) {
      var i :| 0 <= i < |after.analytics| && after.analytics[i] == a;
      var was := db.analytics[i];
      assert was in db.analytics && RowAgrees(Keys(db.offers), db.snapshots, was);
      LogMoves(Keys(db.offers), Keys(after.offers), db.snapshots, source, target, was.productId, was.storeId);
    }
  }

  lemma OffersMove(db: Db, after: Db, source: Id, target: Id)
    requires Coherent(db) && RowsMerged(db, after, source, target)
    ensures OffersKeyed(after.offers, after.nextId) && OffersLogged(after.offers, after.snapshots)
    ensures Covered(after.offers, after.analytics)
  {
    RenamedKeys(db.offers, after.offers, source, target);
    forall i, j | 0 <= i < j < |after.offers| ensures OfferId()(after.offers[i]) != OfferId()(after.offers[j]) {
      assert OfferId()(db.offers[i]) != OfferId()(db.offers[j]);
    }
    forall o | o in after.offers ensures o.id < after.nextId && IsCurrent(after.snapshots, o) {
      var i :| 0 <= i < |after.offers| && after.offers[i] == o;
      assert db.offers[i] in db.offers && IsCurrent(db.snapshots, db.offers[i]);
    }
    forall o | o in after.offers
      ensures (o.productId, None) in RowKeys(after.analytics)
      ensures (o.productId, Some(o.storeId)) in RowKeys(after.analytics)
    {
      var i :| 0 <= i < |after.offers| && after.offers[i] == o;
      RowKeyMoves(db.analytics, after.analytics, source, target, db.offers[i].productId, None);
      RowKeyMoves(db.analytics, after.analytics, source, target, db.offers[i].productId, Some(o.storeId));
    }
  }

  lemma RowKeyMoves(rows: seq<Analytics>, after: seq<Analytics>, source: Id, target: Id, productId: Id, storeId: Option<Id>)
    requires Redirected(rows, after, AnalyticsRefers(source), AnalyticsTo(target))
    requires (productId, storeId) in RowKeys(rows)
    ensures (Renamed(source, target, productId), storeId) in RowKeys(after)
  {
    var a :| a in rows && AnalyticsKey()(a) == (productId, storeId);
    var i :| 0 <= i < |rows| && rows[i] == a;
    assert AnalyticsKey()(after[i]) == (Renamed(source, target, productId), storeId);
    assert after[i] in after;
  }

  // A merge keeps cache and log in agreement exactly if one of the two products has no row.
  lemma MergedCoherentIff(db: Db, after: Db, source: Id, target: Id)
    requires Coherent(db) && RowsMerged(db, after, source, target)
    ensures Coherent(after) <==> !HasRow(db.analytics, source) || !HasRow(db.analytics, target)
  {
    if !HasRow(db.analytics, source) {
      NothingToMove(db, after, source, target);
    } else if !HasRow(db.analytics, target) {
      RowsMove(db, after, source, target);
      OffersMove(db, after, source, target);
    } else {
      BothRowsClash(db, after, source, target);
    }
  }
}
