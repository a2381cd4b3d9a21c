/** Source synchronisation (domains/stores/sync.py): a feed record is priced in euro, resolved to
    a product, stored as an offer and logged in the run. */
module Sync {
  import opened Prelude
  import opened Tables
  import opened Offers
  import Fx

  // What the service takes from libraries: the text normalisers and the rounding rule.
  datatype Env = Env(nameOf: string -> string, identityOf: string -> string, nearest: Fx.Rounding)

  datatype ProductRecord = ProductRecord(externalProductId: string, name: string,
                                         categorySlug: string, categoryName: string,
                                         brandName: Option<string>, model: Option<string>,
                                         sku: Option<string>)

  datatype Record = Record(externalId: string, productId: Option<Id>, productUrl: string,
                           sourcePrice: real, sourceOldPrice: Option<real>, sourceCurrency: string,
                           eurPrice: Option<real>, eurOldPrice: Option<real>, fxRateToEur: Option<real>,
                           discountPercent: Option<real>, availability: string, sizes: seq<Size>,
                           product: Option<ProductRecord>)

  // Python truth of an optional text.
  predicate Given(s: Option<string>) { s.Some? && s.value != "" }

  // ---- prices ----

  datatype EurPrices = EurPrices(price: real, oldPrice: Option<real>, rate: Option<real>)

  function NormalizedPrices(env: Env, rates: seq<FxRate>, r: Record): Result<EurPrices, SyncError> {
    if r.eurPrice.Some? then Ok(EurPrices(r.eurPrice.value, r.eurOldPrice, r.fxRateToEur))
    else match Fx.Convert(env.nearest, rates, Some(r.sourcePrice), r.sourceCurrency, None)
      case Err(e) => Err(e)
      case Ok(price) =>
        match Fx.Convert(env.nearest, rates, r.sourceOldPrice, r.sourceCurrency, None)
        case Err(e) => Err(e)
        case Ok(oldPrice) => Ok(EurPrices(price.0.value, oldPrice.0, price.1))
  }

  // ---- identity ----

  function IdentityText(env: Env, model: Option<string>, name: string): string {
    env.identityOf(if Given(model) then model.value else name)
  }

  function NormalizedIdentity(env: Env, model: Option<string>, name: string): Option<string> {
    var text := IdentityText(env, model, name);
    if |text| < 4 then None else Some(text)
  }

  function InGroup(brandId: Option<Id>, categoryId: Id): Product -> bool {
    (p: Product) => p.categoryId == categoryId && p.brandId == brandId
  }

  function IdentityMatches(env: Env, identity: string, name: string): Product -> bool {
    (p: Product) => IdentityText(env, p.model, p.name) == identity || env.identityOf(p.name) == env.identityOf(name)
  }

  function FindByIdentity(env: Env, products: seq<Product>, brandId: Option<Id>, categoryId: Id,
                          model: Option<string>, name: string): Option<Product>
  {
    match NormalizedIdentity(env, model, name)
    case None => None
    case Some(identity) =>
      Find(Filter(products, InGroup(brandId, categoryId)), IdentityMatches(env, identity, name))
  }

  method FindProductByNormalizedIdentity(session: Session, env: Env, brandId: Option<Id>, categoryId: Id,
                                         model: Option<string>, name: string)
    returns (r: Option<Product>)
    ensures r == FindByIdentity(env, session.products, brandId, categoryId, model, name)
  {
    var identity := NormalizedIdentity(env, model, name);
    if identity.None? {
      return None;
    }
    var rows := Filter(session.products, InGroup(brandId, categoryId));
    var matches := IdentityMatches(env, identity.value, name);
    for i := 0 to |rows|
      invariant Find(rows, matches) == Find(rows[i..], matches)
    {
      if matches(rows[i]) {
        return Some(rows[i]);
      }
      assert rows[i..][1..] == rows[i + 1..];
    }
    assert rows[|rows|..] == [];
    r := None;
  }

  // ---- get or create ----

  function BrandNamed(normalizedName: string): Brand -> bool { (b: Brand) => b.normalizedName == normalizedName }

  function CategoryOfSlug(slug: string): Category -> bool { (c: Category) => c.slug == slug }

  function SkuIs(sku: Option<string>): Product -> bool { (p: Product) => p.sku == sku }

  function MappingOf(storeId: Id, configId: Id, externalId: string): Mapping -> bool {
    (m: Mapping) => m.storeId == storeId && m.configId == configId && m.externalId == externalId
  }

  function WithBrand(env: Env, db: Db, name: Option<string>): (Db, Option<Id>) {
    if !Given(name) then (db, None)
    else match Find(db.brands, BrandNamed(env.nameOf(name.value)))
      case Some(b) => (db, Some(b.id))
      case None =>
        var b := Brand(db.nextId, name.value, env.nameOf(name.value));
        (db.(nextId := db.nextId + 1, brands := db.brands + [b]), Some(b.id))
  }

  method GetOrCreateBrand(session: Session, env: Env, name: Option<string>) returns (brandId: Option<Id>)
    modifies session`nextId, session`brands
    ensures (session.State(), brandId) == WithBrand(env, old(session.State()), name)
  {
    if !Given(name) {
      return None;
    }
    match Find(session.brands, BrandNamed(env.nameOf(name.value)))
    case Some(b) =>
      return Some(b.id);
    case None =>
      var id := session.NewId();
      session.brands := session.brands + [Brand(id, name.value, env.nameOf(name.value))];
      return Some(id);
  }

  function WithCategory(db: Db, slug: string, name: string): (Db, Id) {
    match Find(db.categories, CategoryOfSlug(slug))
    case Some(c) => (db, c.id)
    case None =>
      var c := Category(db.nextId, slug, name);
      (db.(nextId := db.nextId + 1, categories := db.categories + [c]), c.id)
  }

  method GetOrCreateCategory(session: Session, slug: string, name: string) returns (categoryId: Id)
    modifies session`nextId, session`categories
    ensures (session.State(), categoryId) == WithCategory(old(session.State()), slug, name)
  {
    match Find(session.categories, CategoryOfSlug(slug))
    case Some(c) =>
      return c.id;
    case None =>
      categoryId := session.NewId();
      session.categories := session.categories + [Category(categoryId, slug, name)];
  }

  // ---- resolving a record to a product ----

  function KnownProduct(env: Env, products: seq<Product>, brandId: Option<Id>, categoryId: Id,
                        r: ProductRecord): Option<Product>
  {
    var bySku := if Given(r.sku) then Find(products, SkuIs(r.sku)) else None;
    if bySku.Some? then bySku else FindByIdentity(env, products, brandId, categoryId, r.model, r.name)
  }

  function WithProduct(env: Env, db: Db, brandId: Option<Id>, categoryId: Id, r: ProductRecord): (Db, Id) {
    match KnownProduct(env, db.products, brandId, categoryId, r)
    case Some(p) => (db, p.id)
    case None =>
      var p := Product(db.nextId, brandId, categoryId, r.model, r.name, r.sku);
      (db.(nextId := db.nextId + 1, products := db.products + [p]), p.id)
  }

  function Mapped(env: Env, db: Db, storeId: Id, configId: Id, r: ProductRecord): (Db, Id) {
    match Find(db.mappings, MappingOf(storeId, configId, r.externalProductId))
    case Some(m) => (db, m.productId)
    case None =>
      var (db1, brandId) := WithBrand(env, db, r.brandName);
      var (db2, categoryId) := WithCategory(db1, r.categorySlug, r.categoryName);
      var (db3, productId) := WithProduct(env, db2, brandId, categoryId, r);
      (db3.(mappings := db3.mappings + [Mapping(storeId, configId, r.externalProductId, productId)]), productId)
  }

  function Resolved(env: Env, db: Db, storeId: Id, configId: Option<Id>, r: Record): Result<(Db, Id), SyncError> {
    if r.productId.Some? then Ok((db, r.productId.value))
    else if r.product.None? then Err(NoProductData)
    else if configId.None? then Err(NoConfigId)
    else Ok(Mapped(env, db, storeId, configId.value, r.product.value))
  }

  method ResolveSourceProductId(session: Session, env: Env, storeId: Id, configId: Option<Id>, r: Record)
    returns (result: Result<Id, SyncError>)
    modifies session`nextId, session`brands, session`categories, session`products, session`mappings
    ensures match Resolved(env, old(session.State()), storeId, configId, r)
            case Err(e) => result == Err(e) && session.State() == old(session.State())
            case Ok(v) => result == Ok(v.1) && session.State() == v.0
  {
    if r.productId.Some? {
      return Ok(r.productId.value);
    }
    if r.product.None? {
      return Err(NoProductData);
    }
    if configId.None? {
      return Err(NoConfigId);
    }
    var record := r.product.value;
    var mapping := Find(session.mappings, MappingOf(storeId, configId.value, record.externalProductId));
    if mapping.Some? {
      return Ok(mapping.value.productId);
    }
    var brandId := GetOrCreateBrand(session, env, record.brandName);
    var categoryId := GetOrCreateCategory(session, record.categorySlug, record.categoryName);
    var product := None;
    if Given(record.sku) {
      product := Find(session.products, SkuIs(record.sku));
    }
    if product.None? {
      product := FindProductByNormalizedIdentity(session, env, brandId, categoryId, record.model, record.name);
    }
    if product.None? {
      var id := session.NewId();
      product := Some(Product(id, brandId, categoryId, record.model, record.name, record.sku));
      session.products := session.products + [product.value];
    }
    session.mappings := session.mappings +
      [Mapping(storeId, configId.value, record.externalProductId, product.value.id)];
    result := Ok(product.value.id);
  }

  // ---- storing a record as an offer ----

  function QuoteOf(r: Record, prices: EurPrices): Quote {
    Quote(r.sourcePrice, r.sourceOldPrice, r.sourceCurrency, prices.price, prices.oldPrice, prices.rate,
          r.discountPercent, r.availability)
  }

  function PayloadOf(r: Record, prices: EurPrices, storeId: Id, productId: Id): OfferPayload {
    OfferPayload(productId, storeId, Some(r.externalId), r.productUrl, QuoteOf(r, prices), r.sizes)
  }

  function PatchOf(r: Record, prices: EurPrices): OfferPatch {
    OfferPatch(Some(r.productUrl), Some(r.sourcePrice), Some(r.sourceOldPrice), Some(r.sourceCurrency),
               Some(prices.price), Some(prices.oldPrice), Some(prices.rate), Some(r.discountPercent),
               Some(r.availability))
  }

  // An offer the store already listed keeps its product and id; everything else is the record's.
  function Refreshed(o: Offer, r: Record, prices: EurPrices): Offer {
    o.(productUrl := r.productUrl, quote := QuoteOf(r, prices), sizes := r.sizes)
  }

  function OfferStored(db: Db, storeId: Id, productId: Id, r: Record, prices: EurPrices, now: int)
    : Result<(Db, Offer), SyncError>
  {
    match Find(db.offers, Clashes(storeId, Some(r.externalId)))
    case None => OfferCreated(db, PayloadOf(r, prices, storeId, productId), now)
    case Some(o) => Ok((OfferReplaced(db, Refreshed(o, r, prices), now), Refreshed(o, r, prices)))
  }

  function Upserted(env: Env, db: Db, storeId: Id, configId: Option<Id>, r: Record, now: int)
    : Result<(Db, Offer), SyncError>
  {
    match NormalizedPrices(env, db.rates, r)
    case Err(e) => Err(e)
    case Ok(prices) =>
      match Resolved(env, db, storeId, configId, r)
      case Err(e) => Err(e)
      case Ok(resolved) => OfferStored(resolved.0, storeId, resolved.1, r, prices, now)
  }

  // Resolving through product data leaves a live product, so only a resolution that wrote
  // nothing can still be refused by the offers table.
  lemma RejectedAfterNoWrite(env: Env, db: Db, storeId: Id, configId: Option<Id>, r: Record)
    requires Resolved(env, db, storeId, configId, r).Ok?
    ensures var v := Resolved(env, db, storeId, configId, r).value;
            v.0 == db || Find(v.0.products, HasProductId(v.1)).Some?
  {
    if r.productId.None? {
      var p := r.product.value;
      var c := configId.value;
      if Find(db.mappings, MappingOf(storeId, c, p.externalProductId)).None? {
        var (db1, brandId) := WithBrand(env, db, p.brandName);
        var (db2, categoryId) := WithCategory(db1, p.categorySlug, p.categoryName);
        WithProductFinds(env, db2, brandId, categoryId, p);
      }
    }
  }

  lemma WithProductFinds(env: Env, db: Db, brandId: Option<Id>, categoryId: Id, r: ProductRecord)
    ensures var (after, id) := WithProduct(env, db, brandId, categoryId, r);
            Find(after.products, HasProductId(id)).Some?
  {
    var (after, id) := WithProduct(env, db, brandId, categoryId, r);
    match KnownProduct(env, db.products, brandId, categoryId, r)
    case Some(p) =>
      assert p in db.products;
      assert HasProductId(id)(p);
    case None =>
      var p := after.products[|db.products|];
      assert p in after.products && HasProductId(id)(p);
  }

  lemma ReplacedIsListed(offers: seq<Offer>, listed: Offer, cleared: Offer)
    requires listed in offers && cleared.id == listed.id
    ensures cleared in MapSeq(offers, ReplaceOffer(cleared))
  {
    var k :| 0 <= k < |offers| && offers[k] == listed;
    assert MapSeq(offers, ReplaceOffer(cleared))[k] == cleared;
  }

  lemma PatchRefreshes(listed: Offer, r: Record, prices: EurPrices)
    ensures Patched(listed.(sizes := r.sizes), PatchOf(r, prices)) == Refreshed(listed, r, prices)
  {}

  lemma ReplacedTwice(offers: seq<Offer>, a: Offer, b: Offer)
    requires a.id == b.id
    ensures MapSeq(MapSeq(offers, ReplaceOffer(a)), ReplaceOffer(b)) == MapSeq(offers, ReplaceOffer(b))
  {}

  method RefreshOffer(session: Session, listed: Offer, r: Record, prices: EurPrices, now: int)
    returns (renewed: Offer)
    requires listed in session.offers
    modifies session`offers, session`snapshots, session`analytics
    ensures renewed == Refreshed(listed, r, prices)
    ensures session.State() == OfferReplaced(old(session.State()), renewed, now)
  {
    ghost var offers := session.offers;
    var cleared := listed.(sizes := r.sizes);
    session.offers := MapSeq(session.offers, ReplaceOffer(cleared));
    ReplacedIsListed(offers, listed, cleared);
    renewed := UpdateOffer(session, cleared, PatchOf(r, prices), now);
    PatchRefreshes(listed, r, prices);
    ReplacedTwice(offers, cleared, renewed);
  }

  method StoreOffer(session: Session, storeId: Id, productId: Id, r: Record, prices: EurPrices, now: int)
    returns (result: Result<Offer, SyncError>)
    modifies session`nextId, session`offers, session`snapshots, session`analytics
    ensures match OfferStored(old(session.State()), storeId, productId, r, prices, now)
            case Err(e) => result == Err(e) && session.State() == old(session.State())
            case Ok(v) => result == Ok(v.1) && session.State() == v.0
  {
    match Find(session.offers, Clashes(storeId, Some(r.externalId)))
    case None =>
      result := CreateOffer(session, PayloadOf(r, prices, storeId, productId), now);
    case Some(listed) =>
      var renewed := RefreshOffer(session, listed, r, prices, now);
      result := Ok(renewed);
  }

  lemma RefusedMeansUnwritten(env: Env, db: Db, storeId: Id, configId: Option<Id>, r: Record,
                              prices: EurPrices, now: int)
    requires Resolved(env, db, storeId, configId, r).Ok?
    ensures var v := Resolved(env, db, storeId, configId, r).value;
            OfferStored(v.0, storeId, v.1, r, prices, now).Err? ==> v.0 == db
  {
    RejectedAfterNoWrite(env, db, storeId, configId, r);
  }

  method UpsertOfferFromSourceRecord(session: Session, env: Env, storeId: Id, configId: Option<Id>,
                                     r: Record, now: int)
    returns (result: Result<Offer, SyncError>)
    modifies session`nextId, session`brands, session`categories, session`products, session`mappings
    modifies session`offers, session`snapshots, session`analytics
    // A refused record has written nothing.
    ensures match Upserted(env, old(session.State()), storeId, configId, r, now)
            case Err(e) => result == Err(e) && session.State() == old(session.State())
            case Ok(v) => result == Ok(v.1) && session.State() == v.0
  {
    var prices := NormalizedPrices(env, session.rates, r);
    if prices.Err? {
      return Err(prices.error);
    }
    ghost var before := session.State();
    var productId := ResolveSourceProductId(session, env, storeId, configId, r);
    if productId.Err? {
      return Err(productId.error);
    }
    RefusedMeansUnwritten(env, before, storeId, configId, r, prices.value, now);
    result := StoreOffer(session, storeId, productId.value, r, prices.value, now);
  }

  // ---- a run ----

  // A record and the time at which it is processed.
  datatype Timed = Timed(record: Record, at: int)

  datatype Outcome = Stored(offer: Offer) | Lost(error: SyncError)

  function Processed(env: Env, db: Db, storeId: Id, configId: Option<Id>, t: Timed): (Db, Outcome) {
    match Upserted(env, db, storeId, configId, t.record, t.at)
    case Err(e) => (db, Lost(e))
    case Ok(v) => (v.0, Stored(v.1))
  }

  type Step = (Db, Timed) -> (Db, Outcome)

  function StepFor(env: Env, storeId: Id, configId: Option<Id>): Step {
    (db: Db, t: Timed) => Processed(env, db, storeId, configId, t)
  }

  // The records one after another, with what became of each.
  function RunWith(step: Step, db: Db, feed: seq<Timed>): (r: (Db, seq<Outcome>))
    ensures |r.1| == |feed|
  {
    if feed == [] then (db, [])
    else
      var (before, outcomes) := RunWith(step, db, feed[..|feed| - 1]);
      var (after, outcome) := step(before, feed[|feed| - 1]);
      (after, outcomes + [outcome])
  }

  lemma RunOneMore(step: Step, db: Db, feed: seq<Timed>, t: Timed)
    ensures var (before, outcomes) := RunWith(step, db, feed);
            var (after, outcome) := step(before, t);
            RunWith(step, db, feed + [t]) == (after, outcomes + [outcome])
  {
    assert (feed + [t])[..|feed|] == feed;
  }

  function RunRecords(env: Env, db: Db, storeId: Id, configId: Option<Id>, feed: seq<Timed>)
    : (r: (Db, seq<Outcome>))
    ensures |r.1| == |feed|
  {
    RunWith(StepFor(env, storeId, configId), db, feed)
  }

  function ItemOf(runId: Id, t: Timed, outcome: Outcome): RunItem {
    match outcome
    case Stored(o) => RunItem(runId, t.record.externalId, Some(o.productId), Some(o.id), None)
    case Lost(e) => RunItem(runId, t.record.externalId, None, None, Some(e))
  }

  function ItemsOf(runId: Id, feed: seq<Timed>, outcomes: seq<Outcome>): seq<RunItem>
    requires |feed| == |outcomes|
  {
    seq(|feed|, i requires 0 <= i < |feed| => ItemOf(runId, feed[i], outcomes[i]))
  }

  function IsLost(): Outcome -> bool { (o: Outcome) => o.Lost? }

  function IsStored(): Outcome -> bool { (o: Outcome) => o.Stored? }

  function ProductsSeen(outcomes: seq<Outcome>): set<Id> {
    set o | o in outcomes && o.Stored? :: o.offer.productId
  }

  function StatusOf(stored: nat, lost: nat): RunStatus {
    if lost == 0 then Succeeded else if stored == 0 then Failed else PartiallyFailed
  }

  function FinishedRun(id: Id, storeId: Id, configId: Option<Id>, outcomes: seq<Outcome>, startedAt: int): SyncRun {
    var lost := |Filter(outcomes, IsLost())|;
    SyncRun(id, storeId, configId, StatusOf(|outcomes| - lost, lost),
            |ProductsSeen(outcomes)|, |outcomes| - lost, lost, startedAt)
  }

  lemma OneMoreItem(runId: Id, records: seq<Timed>, i: nat, outcomes: seq<Outcome>, outcome: Outcome)
    requires i < |records| && |outcomes| == i
    ensures ItemsOf(runId, records[..i + 1], outcomes + [outcome]) ==
              ItemsOf(runId, records[..i], outcomes) + [ItemOf(runId, records[i], outcome)]
  {}

  lemma OneMoreOutcome(outcomes: seq<Outcome>, outcome: Outcome)
    ensures |Filter(outcomes + [outcome], IsLost())| ==
              |Filter(outcomes, IsLost())| + (if outcome.Lost? then 1 else 0)
    ensures ProductsSeen(outcomes + [outcome]) ==
              ProductsSeen(outcomes) + (if outcome.Stored? then {outcome.offer.productId} else {})
  {
    FilterLast(outcomes, outcome, IsLost());
  }

  method ProcessRecord(session: Session, env: Env, runId: Id, storeId: Id, configId: Option<Id>, t: Timed)
    returns (outcome: Outcome)
    modifies session`nextId, session`brands, session`categories, session`products, session`mappings
    modifies session`offers, session`snapshots, session`analytics, session`items
    ensures (session.State(), outcome) == StepFor(env, storeId, configId)(old(session.State()), t)
    ensures session.items == old(session.items) + [ItemOf(runId, t, outcome)]
  {
    var result := UpsertOfferFromSourceRecord(session, env, storeId, configId, t.record, t.at);
    match result {
      case Ok(offer) => outcome := Stored(offer);
      case Err(e) => outcome := Lost(e);
    }
    session.items := session.items + [ItemOf(runId, t, outcome)];
  }

  lemma OneMoreRecord(step: Step, start: Db, records: seq<Timed>, i: nat,
                      before: Db, outcomes: seq<Outcome>, after: Db, outcome: Outcome)
    requires i < |records| && (before, outcomes) == RunWith(step, start, records[..i])
    requires (after, outcome) == step(before, records[i])
    ensures (after, outcomes + [outcome]) == RunWith(step, start, records[..i + 1])
  {
    assert records[..i + 1] == records[..i] + [records[i]];
    RunOneMore(step, start, records[..i], records[i]);
  }

  method ProcessRecords(session: Session, env: Env, runId: Id, storeId: Id, configId: Option<Id>,
                        records: seq<Timed>)
    returns (productIds: set<Id>, failedOffers: nat, ghost outcomes: seq<Outcome>)
    modifies session`nextId, session`brands, session`categories, session`products, session`mappings
    modifies session`offers, session`snapshots, session`analytics, session`items
    ensures (session.State(), outcomes) ==
              RunWith(StepFor(env, storeId, configId), old(session.State()), records)
    ensures session.items == old(session.items) + ItemsOf(runId, records, outcomes)
    ensures productIds == ProductsSeen(outcomes)
    ensures failedOffers == |Filter(outcomes, IsLost())|
  {
    ghost var start, items, step := session.State(), session.items, StepFor(env, storeId, configId);
    productIds, failedOffers, outcomes := {}, 0, [];
    for i := 0 to |records|
      invariant (session.State(), outcomes) == RunWith(step, start, records[..i])
      invariant session.items == items + ItemsOf(runId, records[..i], outcomes)
      invariant productIds == ProductsSeen(outcomes)
      invariant failedOffers == |Filter(outcomes, IsLost())|
    {
      ghost var before := session.State();
      var outcome := ProcessRecord(session, env, runId, storeId, configId, records[i]);
      OneMoreRecord(step, start, records, i, before, outcomes, session.State(), outcome);
      OneMoreItem(runId, records, i, outcomes, outcome);
      OneMoreOutcome(outcomes, outcome);
      match outcome {
        case Stored(offer) => productIds := productIds + {offer.productId};
        case Lost(_) => failedOffers := failedOffers + 1;
      }
      outcomes := outcomes + [outcome];
    }
    assert records[..|records|] == records;
  }

  // The counts and the status of a run after its records.
  method FinishRun(running: SyncRun, records: nat, productIds: set<Id>, failedOffers: nat,
                   ghost outcomes: seq<Outcome>)
    returns (run: SyncRun)
    requires |outcomes| == records && productIds == ProductsSeen(outcomes)
    requires failedOffers == |Filter(outcomes, IsLost())|
    ensures run == FinishedRun(running.id, running.storeId, running.configId, outcomes, running.startedAt)
  {
    run := running.(productsSeen := |productIds|, offersSeen := records - failedOffers, failedOffers := failedOffers);
    if failedOffers == 0 {
      run := run.(status := Succeeded);
    } else if run.offersSeen == 0 {
      run := run.(status := Failed);
    } else {
      run := run.(status := PartiallyFailed);
    }
  }

  method SyncFeed(session: Session, env: Env, running: SyncRun, feed: seq<Timed>)
    returns (run: SyncRun, ghost outcomes: seq<Outcome>)
    modifies session`nextId, session`brands, session`categories, session`products, session`mappings
    modifies session`offers, session`snapshots, session`analytics, session`items
    ensures (session.State(), outcomes) ==
              RunRecords(env, old(session.State()), running.storeId, running.configId, feed)
    ensures session.items == old(session.items) + ItemsOf(running.id, feed, outcomes)
    ensures run == FinishedRun(running.id, running.storeId, running.configId, outcomes, running.startedAt)
  {
    var productIds, failedOffers;
    productIds, failedOffers, outcomes :=
      ProcessRecords(session, env, running.id, running.storeId, running.configId, feed);
    run := FinishRun(running, |feed|, productIds, failedOffers, outcomes);
  }

  // A source that fails to deliver its records is no feed.
  method RunSourceSync(session: Session, env: Env, storeId: Id, configId: Option<Id>,
                       feed: Option<seq<Timed>>, startedAt: int)
    returns (run: SyncRun)
    modifies session`nextId, session`brands, session`categories, session`products, session`mappings
    modifies session`offers, session`snapshots, session`analytics, session`runs, session`items
    ensures session.runs == old(session.runs) + [run]
    ensures feed.None? ==>
              && session.State() == old(session.State()).(nextId := old(session.nextId) + 1)
              && session.items == old(session.items)
              && run == SyncRun(old(session.nextId), storeId, configId, Failed, 0, 0, 0, startedAt)
    ensures feed.Some? ==>
              var (db, outcomes) := RunRecords(env, old(session.State()).(nextId := old(session.nextId) + 1),
                                               storeId, configId, feed.value);
              && session.State() == db
              && session.items == old(session.items) + ItemsOf(run.id, feed.value, outcomes)
              && run == FinishedRun(old(session.nextId), storeId, configId, outcomes, startedAt)
  {
    var id := session.NewId();
    var journal := session.runs;
    run := SyncRun(id, storeId, configId, Running, 0, 0, 0, startedAt);
    session.runs := journal + [run];
    if feed.None? {
      run := run.(status := Failed);
    } else {
      ghost var outcomes;
      run, outcomes := SyncFeed(session, env, run, feed.value);
    }
    session.runs := journal + [run];
  }
}
