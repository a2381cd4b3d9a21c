/** Offers, their price snapshots and the cached price analytics (domains/offers/service.py). */
module Offers {
  import opened Prelude
  import opened Tables
  import opened Statistics

  // ---- the price log of a product, over one store or all stores ----

  // What joins a snapshot to a product and a store: the row of its offer.
  datatype OfferKey = OfferKey(offerId: Id, productId: Id, storeId: Id)

  function KeyOf(o: Offer): OfferKey { OfferKey(o.id, o.productId, o.storeId) }

  function Keys(offers: seq<Offer>): set<OfferKey> { set o | o in offers :: KeyOf(o) }

  predicate OfStore(k: OfferKey, storeId: Option<Id>) {
    storeId.Some? ==> k.storeId == storeId.value
  }

  function Joined(keys: set<OfferKey>, productId: Id, storeId: Option<Id>): Snapshot -> bool {
    (s: Snapshot) => exists k | k in keys :: k.offerId == s.offerId && k.productId == productId && OfStore(k, storeId)
  }

  function ByCapture(): (Snapshot, Snapshot) -> bool {
    (a: Snapshot, b: Snapshot) => a.capturedAt <= b.capturedAt
  }

  function PointOf(): Snapshot -> Point { (s: Snapshot) => Point(s.quote.eurPrice, s.capturedAt) }

  function JoinedSnapshots(keys: set<OfferKey>, snapshots: seq<Snapshot>, productId: Id, storeId: Option<Id>)
    : seq<Snapshot>
  {
    Sort(Filter(snapshots, Joined(keys, productId, storeId)), ByCapture())
  }

  function Log(keys: set<OfferKey>, snapshots: seq<Snapshot>, productId: Id, storeId: Option<Id>): seq<Point> {
    MapSeq(JoinedSnapshots(keys, snapshots, productId, storeId), PointOf())
  }

  // ---- analytics rows ----

  function Summary(log: seq<Point>, productId: Id, storeId: Option<Id>, now: int): Analytics {
    var prices365d := Prices(Recent(log, now, 365));
    Analytics(productId, storeId,
              MinForDays(log, now, 30), MinForDays(log, now, 90),
              MinForDays(log, now, 180), MinForDays(log, now, 365),
              MinOf(Prices(log)), Mean(prices365d), LowestTenth(prices365d), now)
  }

  function AnalyticsKey(): Analytics -> (Id, Option<Id>) { (a: Analytics) => (a.productId, a.storeId) }

  function ForKey(productId: Id, storeId: Option<Id>): Analytics -> bool {
    (a: Analytics) => a.productId == productId && a.storeId == storeId
  }

  function GetAnalytics(rows: seq<Analytics>, productId: Id, storeId: Option<Id>): Option<Analytics> {
    Find(rows, ForKey(productId, storeId))
  }

  function Recomputed(db: Db, productId: Id, storeId: Option<Id>, now: int): Db {
    var log := Log(Keys(db.offers), db.snapshots, productId, storeId);
    db.(analytics := Put(db.analytics, Summary(log, productId, storeId, now), AnalyticsKey()))
  }

  method ComputePriceAnalytics(session: Session, productId: Id, storeId: Option<Id>, now: int)
    returns (row: Analytics)
    modifies session`analytics
    ensures session.State() == Recomputed(old(session.State()), productId, storeId, now)
    ensures row in session.analytics && AnalyticsKey()(row) == (productId, storeId)
  {
    var log := Log(Keys(session.offers), session.snapshots, productId, storeId);
    row := Summary(log, productId, storeId, now);
    session.analytics := Put(session.analytics, row, AnalyticsKey());
  }

  // ---- writing offers ----

  datatype OfferPayload = OfferPayload(productId: Id, storeId: Id, externalId: Option<string>,
                                       productUrl: string, quote: Quote, sizes: seq<Size>)

  // The fields a caller sets; None leaves the column alone.
  datatype OfferPatch = OfferPatch(productUrl: Option<string>, sourcePrice: Option<real>,
                                   sourceOldPrice: Option<Option<real>>, sourceCurrency: Option<string>,
                                   eurPrice: Option<real>, eurOldPrice: Option<Option<real>>,
                                   fxRateToEur: Option<Option<real>>,
                                   discountPercent: Option<Option<real>>, availability: Option<string>)

  function OrOld<T>(set_: Option<T>, old_: T): T { if set_.Some? then set_.value else old_ }

  function Patched(o: Offer, p: OfferPatch): Offer {
    o.(productUrl := OrOld(p.productUrl, o.productUrl),
       quote := Quote(OrOld(p.sourcePrice, o.quote.sourcePrice),
                      OrOld(p.sourceOldPrice, o.quote.sourceOldPrice),
                      OrOld(p.sourceCurrency, o.quote.sourceCurrency),
                      OrOld(p.eurPrice, o.quote.eurPrice),
                      OrOld(p.eurOldPrice, o.quote.eurOldPrice),
                      OrOld(p.fxRateToEur, o.quote.fxRateToEur),
                      OrOld(p.discountPercent, o.quote.discountPercent),
                      OrOld(p.availability, o.quote.availability)))
  }

  function OfferId(): Offer -> Id { (o: Offer) => o.id }

  function WithId(id: Id): Offer -> bool { (o: Offer) => o.id == id }

  function ReplaceOffer(offer: Offer): Offer -> Offer { (o: Offer) => if o.id == offer.id then offer else o }

  function Clashes(storeId: Id, externalId: Option<string>): Offer -> bool {
    (o: Offer) => externalId.Some? && o.storeId == storeId && o.externalId == externalId
  }

  function ProductId(): Product -> Id { (p: Product) => p.id }

  function HasProductId(id: Id): Product -> bool { (p: Product) => p.id == id }

  // The constraints of the offers table: (store, external id) is unique and the product exists.
  predicate Insertable(db: Db, payload: OfferPayload) {
    && Find(db.offers, Clashes(payload.storeId, payload.externalId)).None?
    && Find(db.products, HasProductId(payload.productId)).Some?
  }

  // After an offer row is in place: one snapshot, then both analytics rows.
  function AfterWrite(db: Db, offer: Offer, now: int): Db {
    var logged := db.(snapshots := db.snapshots + [Snapshot(offer.id, offer.quote, now)]);
    Recomputed(Recomputed(logged, offer.productId, None, now), offer.productId, Some(offer.storeId), now)
  }

  function NewOffer(id: Id, p: OfferPayload): Offer {
    Offer(id, p.productId, p.storeId, p.externalId, p.productUrl, p.quote, p.sizes)
  }

  function OfferCreated(db: Db, payload: OfferPayload, now: int): Result<(Db, Offer), SyncError> {
    if !Insertable(db, payload) then Err(Rejected)
    else
      var offer := NewOffer(db.nextId, payload);
      Ok((AfterWrite(db.(nextId := db.nextId + 1, offers := db.offers + [offer]), offer, now), offer))
  }

  function OfferReplaced(db: Db, offer: Offer, now: int): Db {
    AfterWrite(db.(offers := MapSeq(db.offers, ReplaceOffer(offer))), offer, now)
  }

  method CreatePriceSnapshot(session: Session, offer: Offer, now: int)
    modifies session`snapshots
    ensures session.snapshots == old(session.snapshots) + [Snapshot(offer.id, offer.quote, now)]
  {
    session.snapshots := session.snapshots + [Snapshot(offer.id, offer.quote, now)];
  }

  method RecomputeOfferAnalytics(session: Session, offer: Offer, now: int)
    modifies session`analytics
    ensures session.State() ==
              Recomputed(Recomputed(old(session.State()), offer.productId, None, now),
                         offer.productId, Some(offer.storeId), now)
  {
    var _ := ComputePriceAnalytics(session, offer.productId, None, now);
    var _ := ComputePriceAnalytics(session, offer.productId, Some(offer.storeId), now);
  }

  method CreateOffer(session: Session, payload: OfferPayload, now: int) returns (r: Result<Offer, SyncError>)
    modifies session`nextId, session`offers, session`snapshots, session`analytics
    ensures var c := OfferCreated(old(session.State()), payload, now);
            match c
            case Err(e) => r == Err(e) && session.State() == old(session.State())
            case Ok(v) => r == Ok(v.1) && session.State() == v.0
  {
    if !Insertable(session.State(), payload) {
      return Err(Rejected);
    }
    var id := session.NewId();
    var offer := NewOffer(id, payload);
    session.offers := session.offers + [offer];
    CreatePriceSnapshot(session, offer, now);
    RecomputeOfferAnalytics(session, offer, now);
    r := Ok(offer);
  }

  method UpdateOffer(session: Session, offer: Offer, patch: OfferPatch, now: int) returns (updated: Offer)
    requires offer in session.offers
    modifies session`offers, session`snapshots, session`analytics
    ensures updated == Patched(offer, patch)
    ensures session.State() == OfferReplaced(old(session.State()), updated, now)
  {
    updated := Patched(offer, patch);
    session.offers := MapSeq(session.offers, ReplaceOffer(updated));
    CreatePriceSnapshot(session, updated, now);
    RecomputeOfferAnalytics(session, updated, now);
  }

  // ---- what a write leaves ----

  // The snapshot of an offer is the last in the log.
  predicate LoggedLast(before: seq<Snapshot>, after: seq<Snapshot>, o: Offer, now: int) {
    && |after| == |before| + 1 && before <= after
    && var s := after[|before|]; s.offerId == o.id && s.quote == o.quote && s.capturedAt == now
  }

  // An offer is created exactly if its product exists and its store does not list its external id;
  // it gets a new id and the columns of the request, and is logged.
  lemma CreatedOffer(db: Db, payload: OfferPayload, now: int)
    ensures OfferCreated(db, payload, now).Ok? <==>
              && (exists p :: p in db.products && p.id == payload.productId)
              && (forall o | o in db.offers && payload.externalId.Some? ::
                    o.storeId != payload.storeId || o.externalId != payload.externalId)
    ensures OfferCreated(db, payload, now).Ok? ==>
              var (after, o) := OfferCreated(db, payload, now).value;
              && after.offers == db.offers + [o] && o.id == db.nextId && after.nextId == db.nextId + 1
              && o.productId == payload.productId && o.storeId == payload.storeId && o.externalId == payload.externalId
              && o.productUrl == payload.productUrl && o.quote == payload.quote && o.sizes == payload.sizes
              && LoggedLast(db.snapshots, after.snapshots, o, now) && after.products == db.products
  {
    var clashes := Clashes(payload.storeId, payload.externalId);
    forall p | p in db.products && p.id == payload.productId
      ensures Find(db.products, HasProductId(payload.productId)).Some?
    {
      assert HasProductId(payload.productId)(p);
    }
    if Find(db.offers, clashes).None? {
      forall o | o in db.offers && payload.externalId.Some?
        ensures o.storeId != payload.storeId || o.externalId != payload.externalId
      {
        assert !clashes(o);
      }
    }
  }

  predicate SetOrKept<T(==)>(field: Option<T>, was: T, is_: T) { is_ == match field case Some(v) => v case None => was }

  // An update writes the fields that are set and leaves the others; the offer keeps its place and is
  // logged, and no other offer changes.
  lemma PatchedOffer(db: Db, o: Offer, p: OfferPatch, now: int)
    requires o in db.offers
    ensures var n, after := Patched(o, p), OfferReplaced(db, Patched(o, p), now);
            && n.id == o.id && n.productId == o.productId && n.storeId == o.storeId && n.externalId == o.externalId
            && n.sizes == o.sizes && SetOrKept(p.productUrl, o.productUrl, n.productUrl)
            && SetOrKept(p.sourcePrice, o.quote.sourcePrice, n.quote.sourcePrice)
            && SetOrKept(p.sourceOldPrice, o.quote.sourceOldPrice, n.quote.sourceOldPrice)
            && SetOrKept(p.sourceCurrency, o.quote.sourceCurrency, n.quote.sourceCurrency)
            && SetOrKept(p.eurPrice, o.quote.eurPrice, n.quote.eurPrice)
            && SetOrKept(p.eurOldPrice, o.quote.eurOldPrice, n.quote.eurOldPrice)
            && SetOrKept(p.fxRateToEur, o.quote.fxRateToEur, n.quote.fxRateToEur)
            && SetOrKept(p.discountPercent, o.quote.discountPercent, n.quote.discountPercent)
            && SetOrKept(p.availability, o.quote.availability, n.quote.availability)
            && n in after.offers && |after.offers| == |db.offers|
            && (forall i | 0 <= i < |db.offers| && db.offers[i].id != o.id :: after.offers[i] == db.offers[i])
            && LoggedLast(db.snapshots, after.snapshots, n, now)
  {
    var i :| 0 <= i < |db.offers| && db.offers[i] == o;
    assert OfferReplaced(db, Patched(o, p), now).offers[i] == Patched(o, p);
  }

  // ---- flags ----

  datatype Flags = Flags(isHistoricalMin: bool, isLowest10: bool)

  predicate ReachedBy(price: real, threshold: Option<real>) {
    threshold.Some? && price <= threshold.value
  }

  function OfferFlags(rows: seq<Analytics>, offer: Offer): Flags {
    match GetAnalytics(rows, offer.productId, Some(offer.storeId))
    case None => Flags(false, false)
    case Some(a) => Flags(ReachedBy(offer.quote.eurPrice, a.minAllTime), ReachedBy(offer.quote.eurPrice, a.lowest10))
  }
}
