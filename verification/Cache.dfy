/** The analytics table is a cache of the snapshot log. This module states what it means for the
    two to agree, and proves that every write keeps them in agreement. */
module Cache {
  import opened Prelude
  import opened Tables
  import opened Statistics
  import opened Offers

  function Ids(offers: seq<Offer>): set<Id> { set o | o in offers :: o.id }

  function OfOffer(id: Id): Snapshot -> bool { (s: Snapshot) => s.offerId == id }

  // ---- offers and their history ----

  ghost predicate OffersKeyed(offers: seq<Offer>, nextId: Id) {
    && Distinct(offers, OfferId())
    && forall o | o in offers :: o.id < nextId
  }

  // An offer's columns are those of its last snapshot.
  ghost predicate IsCurrent(snapshots: seq<Snapshot>, o: Offer) {
    var history := Filter(snapshots, OfOffer(o.id));
    history != [] && history[|history| - 1].quote == o.quote
  }

  ghost predicate OffersLogged(offers: seq<Offer>, snapshots: seq<Snapshot>) {
    && (forall s | s in snapshots :: s.offerId in Ids(offers))
    && (forall o | o in offers :: IsCurrent(snapshots, o))
  }

  // ---- rows and the log ----

  // A cached row is exactly what computing it from the present log gives, as of the time the
  // row carries; and a store's row was computed when the log held a price of the last year.
  ghost predicate RowAgrees(keys: set<OfferKey>, snapshots: seq<Snapshot>, a: Analytics) {
    var log := Log(keys, snapshots, a.productId, a.storeId);
    && a == Summary(log, a.productId, a.storeId, a.calculatedAt)
    && (a.storeId.Some? ==> Recent(log, a.calculatedAt, 365) != [])
  }

  ghost predicate RowsAgreeExcept(keys: set<OfferKey>, snapshots: seq<Snapshot>, rows: seq<Analytics>,
                                  stale: set<(Id, Option<Id>)>)
  {
    && Distinct(rows, AnalyticsKey())
    && forall a | a in rows && AnalyticsKey()(a) !in stale :: RowAgrees(keys, snapshots, a)
  }

  function RowKeys(rows: seq<Analytics>): set<(Id, Option<Id>)> { set a | a in rows :: AnalyticsKey()(a) }

  ghost predicate Covered(offers: seq<Offer>, rows: seq<Analytics>) {
    forall o | o in offers ::
      (o.productId, None) in RowKeys(rows) && (o.productId, Some(o.storeId)) in RowKeys(rows)
  }

  ghost predicate Coherent(db: Db) {
    && OffersKeyed(db.offers, db.nextId)
    && OffersLogged(db.offers, db.snapshots)
    && RowsAgreeExcept(Keys(db.offers), db.snapshots, db.analytics, {})
    && Covered(db.offers, db.analytics)
  }

  lemma EmptyIsCoherent()
    ensures Coherent(EMPTY)
  {}

  // ---- the log of a key under a new snapshot ----

  lemma OtherLogsKept(keys: set<OfferKey>, more: set<OfferKey>, snapshots: seq<Snapshot>, s: Snapshot,
                      productId: Id, storeId: Option<Id>)
    requires forall t | t in snapshots :: Joined(more, productId, storeId)(t) == Joined(keys, productId, storeId)(t)
    requires !Joined(more, productId, storeId)(s)
    ensures Log(more, snapshots + [s], productId, storeId) == Log(keys, snapshots, productId, storeId)
  {
    var p, q := Joined(more, productId, storeId), Joined(keys, productId, storeId);
    FilterConcat(snapshots, [s], p);
    FilterNone([s], p);
    FilterSame(snapshots, p, q);
    assert Filter(snapshots, p) + [] == Filter(snapshots, p);
    assert JoinedSnapshots(more, snapshots + [s], productId, storeId) == JoinedSnapshots(keys, snapshots, productId, storeId);
  }

  lemma NewSnapshotInLog(keys: set<OfferKey>, snapshots: seq<Snapshot>, s: Snapshot,
                         productId: Id, storeId: Option<Id>)
    requires Joined(keys, productId, storeId)(s)
    ensures Point(s.quote.eurPrice, s.capturedAt) in Log(keys, snapshots + [s], productId, storeId)
  {
    var rows := Filter(snapshots + [s], Joined(keys, productId, storeId));
    SortContents(rows, ByCapture());
    var sorted := Sort(rows, ByCapture());
    assert s in (snapshots + [s]);
    assert s in sorted;
    var i :| 0 <= i < |sorted| && sorted[i] == s;
    assert Log(keys, snapshots + [s], productId, storeId)[i] == PointOf()(s);
  }

  // Recomputing a key makes its row agree and touches no other row.
  lemma PutAgrees(keys: set<OfferKey>, snapshots: seq<Snapshot>, rows: seq<Analytics>,
                  productId: Id, storeId: Option<Id>, now: int, stale: set<(Id, Option<Id>)>)
    requires RowsAgreeExcept(keys, snapshots, rows, stale)
    requires storeId.Some? ==> Recent(Log(keys, snapshots, productId, storeId), now, 365) != []
    ensures var row := Summary(Log(keys, snapshots, productId, storeId), productId, storeId, now);
            var after := Put(rows, row, AnalyticsKey());
            && RowsAgreeExcept(keys, snapshots, after, stale - {(productId, storeId)})
            && RowKeys(rows) + {(productId, storeId)} <= RowKeys(after)
  {
    var row := Summary(Log(keys, snapshots, productId, storeId), productId, storeId, now);
    PutContents(rows, row, AnalyticsKey());
    var after := Put(rows, row, AnalyticsKey());
    assert AnalyticsKey()(row) == (productId, storeId);
    forall k | k in RowKeys(rows) ensures k in RowKeys(after) {
      var a :| a in rows && AnalyticsKey()(a) == k;
      if k == (productId, storeId) { assert row in after; } else { assert a in after; }
    }
  }

  lemma RecomputeKeepsCoherent(db: Db, productId: Id, now: int)
    requires Coherent(db)
    ensures Coherent(Recomputed(db, productId, None, now))
  {
    PutAgrees(Keys(db.offers), db.snapshots, db.analytics, productId, None, now, {});
  }

  // ---- writes ----

  // The offers table of a write: the offer's row is new, or replaces one with the same key.
  ghost predicate WritesOffer(before: seq<Offer>, after: seq<Offer>, offer: Offer) {
    && Distinct(after, OfferId())
    && offer in after
    && (forall o | o in after && o.id != offer.id :: o in before)
    && (forall o | o in before && o.id != offer.id :: o in after)
    && (forall o | o in before && o.id == offer.id :: KeyOf(o) == KeyOf(offer))
  }

  lemma SameIdSameRow(offers: seq<Offer>, a: Offer, b: Offer)
    requires Distinct(offers, OfferId()) && a in offers && b in offers && a.id == b.id
    ensures a == b
  {
    SameKeySameRow(offers, OfferId(), a, b);
  }

  lemma KeysOfWrite(before: seq<Offer>, after: seq<Offer>, offer: Offer)
    requires WritesOffer(before, after, offer)
    ensures Keys(after) == Keys(before) + {KeyOf(offer)}
    ensures Ids(after) == Ids(before) + {offer.id}
    ensures forall k | k in Keys(after) && k.offerId == offer.id :: k == KeyOf(offer)
    ensures offer.id in Ids(before) ==> Keys(after) == Keys(before)
  {
    forall o | o in after ensures o.id == offer.id ==> o == offer {
      if o.id == offer.id { SameIdSameRow(after, o, offer); }
    }
    forall k | k in Keys(before) ensures k in Keys(after) {
      var o :| o in before && KeyOf(o) == k;
      if o.id == offer.id { assert KeyOf(offer) == k; } else { assert o in after; }
    }
    forall i | i in Ids(before) ensures i in Ids(after) {
      var o :| o in before && o.id == i;
      if o.id == offer.id { assert offer.id == i; } else { assert o in after; }
    }
    if offer.id in Ids(before) {
      var o :| o in before && o.id == offer.id;
      assert KeyOf(o) in Keys(before);
    }
  }

  lemma WrittenIsCurrent(snapshots: seq<Snapshot>, offer: Offer, now: int)
    ensures IsCurrent(snapshots + [Snapshot(offer.id, offer.quote, now)], offer)
  {
    HistoryGrows(snapshots, Snapshot(offer.id, offer.quote, now), offer.id);
  }

  lemma OtherStaysCurrent(snapshots: seq<Snapshot>, s: Snapshot, o: Offer)
    requires s.offerId != o.id
    ensures IsCurrent(snapshots + [s], o) == IsCurrent(snapshots, o)
  {
    HistoryGrows(snapshots, s, o.id);
  }

  lemma SnapshotIdsKnown(before: seq<Offer>, after: seq<Offer>, snapshots: seq<Snapshot>, offer: Offer)
    requires (forall s | s in snapshots :: s.offerId in Ids(before)) && WritesOffer(before, after, offer)
    ensures (forall s | s in snapshots :: s.offerId in Ids(after)) && offer.id in Ids(after)
  {
    KeysOfWrite(before, after, offer);
  }

  lemma SnapshotKeepsLogged(before: seq<Offer>, after: seq<Offer>, snapshots: seq<Snapshot>,
                            offer: Offer, now: int)
    requires OffersLogged(before, snapshots) && WritesOffer(before, after, offer)
    ensures OffersLogged(after, snapshots + [Snapshot(offer.id, offer.quote, now)])
  {
    var s := Snapshot(offer.id, offer.quote, now);
    SnapshotIdsKnown(before, after, snapshots, offer);
    forall o | o in after ensures IsCurrent(snapshots + [s], o) {
      if o.id == offer.id {
        SameIdSameRow(after, o, offer);
        WrittenIsCurrent(snapshots, offer, now);
      } else {
        assert IsCurrent(snapshots, o);
        OtherStaysCurrent(snapshots, s, o);
      }
    }
  }

  lemma HistoryGrows(snapshots: seq<Snapshot>, s: Snapshot, id: Id)
    ensures Filter(snapshots + [s], OfOffer(id)) ==
              Filter(snapshots, OfOffer(id)) + if s.offerId == id then [s] else []
  {
    FilterLast(snapshots, s, OfOffer(id));
  }

  // A write can only change the logs of its product and of its product in its store.
  lemma WriteStales(before: seq<Offer>, after: seq<Offer>, snapshots: seq<Snapshot>, rows: seq<Analytics>,
                    offer: Offer, now: int)
    requires OffersLogged(before, snapshots) && WritesOffer(before, after, offer)
    requires RowsAgreeExcept(Keys(before), snapshots, rows, {})
    ensures RowsAgreeExcept(Keys(after), snapshots + [Snapshot(offer.id, offer.quote, now)], rows,
                            {(offer.productId, None), (offer.productId, Some(offer.storeId))})
  {
    var s := Snapshot(offer.id, offer.quote, now);
    KeysOfWrite(before, after, offer);
    var stale := {(offer.productId, None), (offer.productId, Some(offer.storeId))};
    forall a | a in rows && AnalyticsKey()(a) !in stale ensures RowAgrees(Keys(after), snapshots + [s], a) {
      assert RowAgrees(Keys(before), snapshots, a);
      LogKeptByWrite(Keys(before), Keys(after), snapshots, s, KeyOf(offer), a.productId, a.storeId);
    }
  }

  lemma LogKeptByWrite(before: set<OfferKey>, after: set<OfferKey>, snapshots: seq<Snapshot>, s: Snapshot,
                       key: OfferKey, productId: Id, storeId: Option<Id>)
    requires after == before + {key} && s.offerId == key.offerId
    requires forall k | k in after && k.offerId == key.offerId :: k == key
    requires after == before || forall t | t in snapshots :: t.offerId != key.offerId
    requires (productId, storeId) != (key.productId, None)
    requires (productId, storeId) != (key.productId, Some(key.storeId))
    ensures Log(after, snapshots + [s], productId, storeId) == Log(before, snapshots, productId, storeId)
  {
    forall t | t in snapshots
      ensures Joined(after, productId, storeId)(t) == Joined(before, productId, storeId)(t)
    {}
    OtherLogsKept(before, after, snapshots, s, productId, storeId);
  }

  lemma StoreLogIsFresh(offers: seq<Offer>, snapshots: seq<Snapshot>, offer: Offer, now: int)
    requires offer in offers
    ensures Recent(Log(Keys(offers), snapshots + [Snapshot(offer.id, offer.quote, now)],
                       offer.productId, Some(offer.storeId)), now, 365) != []
  {
    var s := Snapshot(offer.id, offer.quote, now);
    assert KeyOf(offer) in Keys(offers);
    NewSnapshotInLog(Keys(offers), snapshots, s, offer.productId, Some(offer.storeId));
    var log := Log(Keys(offers), snapshots + [s], offer.productId, Some(offer.storeId));
    assert Point(s.quote.eurPrice, now) in Recent(log, now, 365);
  }

  lemma WriteKeepsCoherent(db: Db, base: Db, offer: Offer, now: int)
    requires Coherent(db) && base == db.(nextId := base.nextId, offers := base.offers)
    requires WritesOffer(db.offers, base.offers, offer) && OffersKeyed(base.offers, base.nextId)
    ensures Coherent(AfterWrite(base, offer, now))
  {
    var p, st := offer.productId, offer.storeId;
    var snapshots := db.snapshots + [Snapshot(offer.id, offer.quote, now)];
    var keys := Keys(base.offers);
    SnapshotKeepsLogged(db.offers, base.offers, db.snapshots, offer, now);
    WriteStales(db.offers, base.offers, db.snapshots, db.analytics, offer, now);
    PutAgrees(keys, snapshots, db.analytics, p, None, now, {(p, None), (p, Some(st))});
    var mid := Put(db.analytics, Summary(Log(keys, snapshots, p, None), p, None, now), AnalyticsKey());
    StoreLogIsFresh(base.offers, db.snapshots, offer, now);
    PutAgrees(keys, snapshots, mid, p, Some(st), now, {(p, None), (p, Some(st))} - {(p, None)});
    var after := AfterWrite(base, offer, now);
    assert {(p, None), (p, Some(st))} - {(p, None)} - {(p, Some(st))} == {};
    forall o | o in base.offers
      ensures (o.productId, None) in RowKeys(after.analytics)
      ensures (o.productId, Some(o.storeId)) in RowKeys(after.analytics)
    {
      if o.id == offer.id { SameIdSameRow(base.offers, o, offer); }
    }
  }

  lemma CreateKeepsCoherent(db: Db, payload: OfferPayload, now: int)
    requires Coherent(db) && OfferCreated(db, payload, now).Ok?
    ensures Coherent(OfferCreated(db, payload, now).value.0)
  {
    var offer := NewOffer(db.nextId, payload);
    var base := db.(nextId := db.nextId + 1, offers := db.offers + [offer]);
    AppendingWrites(db.offers, db.nextId, offer);
    WriteKeepsCoherent(db, base, offer, now);
  }

  // The agreement is not an empty promise: one offer of a product gives such a database.
  lemma FirstOfferIsCoherent(p: Product, payload: OfferPayload, now: int)
    requires payload.productId == p.id
    ensures var c := OfferCreated(EMPTY.(nextId := p.id + 1, products := [p]), payload, now);
            c.Ok? && Coherent(c.value.0) && c.value.0.offers == [c.value.1]
  {
    var db := EMPTY.(nextId := p.id + 1, products := [p]);
    assert OfferCreated(db, payload, now).Ok?;
    CreateKeepsCoherent(db, payload, now);
  }

  lemma AppendingWrites(offers: seq<Offer>, nextId: Id, offer: Offer)
    requires OffersKeyed(offers, nextId) && offer.id == nextId
    ensures WritesOffer(offers, offers + [offer], offer)
    ensures OffersKeyed(offers + [offer], nextId + 1)
  {
    DistinctAppend(offers, OfferId(), offer);
  }

  lemma ReplacingWrites(offers: seq<Offer>, was: Offer, offer: Offer)
    requires Distinct(offers, OfferId()) && was in offers && KeyOf(was) == KeyOf(offer)
    ensures WritesOffer(offers, MapSeq(offers, ReplaceOffer(offer)), offer)
  {
    var after := MapSeq(offers, ReplaceOffer(offer));
    forall i, j | 0 <= i < j < |after| ensures OfferId()(after[i]) != OfferId()(after[j]) {
      assert OfferId()(offers[i]) != OfferId()(offers[j]);
    }
    var k :| 0 <= k < |offers| && offers[k] == was;
    assert after[k] == offer;
    forall o | o in offers && o.id != offer.id ensures o in after {
      var i :| 0 <= i < |offers| && offers[i] == o;
      assert after[i] == o;
    }
    forall o | o in offers && o.id == offer.id ensures KeyOf(o) == KeyOf(offer) {
      SameIdSameRow(offers, o, was);
    }
  }

  lemma UpdateKeepsCoherent(db: Db, was: Offer, offer: Offer, now: int)
    requires Coherent(db) && was in db.offers && KeyOf(was) == KeyOf(offer)
    ensures Coherent(OfferReplaced(db, offer, now))
  {
    ReplacingWrites(db.offers, was, offer);
    WriteKeepsCoherent(db, db.(offers := MapSeq(db.offers, ReplaceOffer(offer))), offer, now);
  }
}
