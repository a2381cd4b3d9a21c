/** Whole histories: any interleaving of feed records, offer writes, recomputations and product
    merges. Where a mapping leads follows the merges, and without merges the analytics cache
    never disagrees with the price log. */
module History {
  import opened Prelude
  import opened Tables
  import opened Offers
  import opened Cache
  import opened CacheMeaning
  import opened Sync
  import opened SyncRuns
  import opened Merge
  import opened CacheMerge
  import Fx

  // The catalogue and offers together with the other tables a merge touches.
  datatype World = World(db: Db, recommendations: seq<Recommendation>, watchlists: seq<Watchlist>,
                         items: seq<RunItem>, variants: seq<Variant>)

  datatype Event =
    | FeedRecord(storeId: Id, configId: Option<Id>, timed: Timed)
    | OfferPosted(payload: OfferPayload, at: int)
    | OfferPatched(offerId: Id, patch: OfferPatch, at: int)
    | AnalyticsRecomputed(productId: Id, at: int)
    | RateCreated(rate: FxRate)
    | RatesImported(quotes: map<string, real>, currencies: seq<string>, origin: string, validAt: int)
    | BrandCreated(name: string, normalizedName: string)
    | CategoryCreated(slug: string, name: string)
    | ProductCreated(brandId: Option<Id>, categoryId: Id, model: Option<string>, name: string, sku: Option<string>)
    | ProductsMerged(source: Id, target: Id)

  function RefsIn(w: World): Refs {
    Refs(w.db.products, w.db.offers, w.db.analytics, w.recommendations, w.watchlists, w.db.mappings, w.items, w.variants)
  }

  function WithRefs(w: World, t: Refs): World {
    World(w.db.(products := t.products, offers := t.offers, analytics := t.analytics, mappings := t.mappings),
          t.recommendations, t.watchlists, t.items, t.variants)
  }

  function AfterMerge(w: World, source: Id, target: Id): World {
    match Merged(RefsIn(w), source, target)
    case Err(_) => w
    case Ok(v) => WithRefs(w, v.0)
  }

  // The admin forms of the catalogue and of the rates. The database refuses a rate whose slot is
  // taken, a brand of a known name, a category of a known slug, and a dangling reference.
  function RateAdded(db: Db, rate: FxRate): Db {
    var r := rate.(currency := Fx.Upper(rate.currency));
    if Fx.ValidRate(rate.currency, rate.rateToEur) && Find(db.rates, Fx.SameSlot(r.currency, r.validAt)).None?
    then db.(rates := db.rates + [r])
    else db
  }

  function WithQuotes(env: Env, db: Db, quotes: map<string, real>, currencies: seq<string>, source: string, validAt: int): Db {
    match Fx.Imported(env.nearest, db.rates, quotes, Fx.Normalized(currencies), source, validAt)
    case Err(_) => db
    case Ok(i) => db.(rates := i.rates)
  }

  function BrandAdded(db: Db, name: string, normalizedName: string): Db {
    if Find(db.brands, (b: Brand) => b.name == name).Some? then db
    else db.(nextId := db.nextId + 1, brands := db.brands + [Brand(db.nextId, name, normalizedName)])
  }

  function CategoryAdded(db: Db, slug: string, name: string): Db {
    if Find(db.categories, CategoryOfSlug(slug)).Some? then db
    else db.(nextId := db.nextId + 1, categories := db.categories + [Category(db.nextId, slug, name)])
  }

  function ProductAdded(db: Db, brandId: Option<Id>, categoryId: Id, model: Option<string>, name: string,
                        sku: Option<string>): Db
  {
    if Find(db.categories, (c: Category) => c.id == categoryId).None?
       || (brandId.Some? && Find(db.brands, (b: Brand) => b.id == brandId.value).None?)
    then db
    else db.(nextId := db.nextId + 1,
             products := db.products + [Product(db.nextId, brandId, categoryId, model, name, sku)])
  }

  // A refused request leaves the database as it was.
  function AfterWriteEvent(env: Env, db: Db, e: Event): Db
    requires !e.ProductsMerged?
  {
    match e
    case FeedRecord(storeId, configId, t) => Processed(env, db, storeId, configId, t).0
    case OfferPosted(payload, at) =>
      (match OfferCreated(db, payload, at) case Err(_) => db case Ok(v) => v.0)
    case OfferPatched(id, patch, at) =>
      (match Find(db.offers, WithId(id)) case None => db case Some(o) => OfferReplaced(db, Patched(o, patch), at))
    case AnalyticsRecomputed(productId, at) => Recomputed(db, productId, None, at)
    case RateCreated(rate) => RateAdded(db, rate)
    case RatesImported(quotes, currencies, origin, validAt) => WithQuotes(env, db, quotes, currencies, origin, validAt)
    case BrandCreated(name, normalizedName) => BrandAdded(db, name, normalizedName)
    case CategoryCreated(slug, name) => CategoryAdded(db, slug, name)
    case ProductCreated(brandId, categoryId, model, name, sku) => ProductAdded(db, brandId, categoryId, model, name, sku)
  }

  function Apply(env: Env, w: World, e: Event): World {
    match e
    case ProductsMerged(source, target) => AfterMerge(w, source, target)
    case _ => w.(db := AfterWriteEvent(env, w.db, e))
  }

  function Run(env: Env, w: World, events: seq<Event>): World
    decreases |events|
  {
    if events == [] then w else Run(env, Apply(env, w, events[0]), events[1..])
  }

  // ---- the merge chain ----

  // The merge an event performs, if it is one and goes through.
  function MergeOf(w: World, e: Event): Option<(Id, Id)> {
    if e.ProductsMerged? && Merged(RefsIn(w), e.source, e.target).Ok? then Some((e.source, e.target)) else None
  }

  function MergesOf(env: Env, w: World, events: seq<Event>): seq<(Id, Id)>
    decreases |events|
  {
    if events == [] then []
    else
      var rest := MergesOf(env, Apply(env, w, events[0]), events[1..]);
      match MergeOf(w, events[0])
      case Some(m) => [m] + rest
      case None => rest
  }

  function Redirect(m: Option<(Id, Id)>, p: Id): Id {
    if m.Some? && m.value.0 == p then m.value.1 else p
  }

  function ChainEnd(merges: seq<(Id, Id)>, p: Id): Id {
    if merges == [] then p
    else ChainEnd(merges[1..], Redirect(Some(merges[0]), p))
  }

  // ---- catalogue invariant ----

  ghost predicate CatalogueOk(db: Db) {
    && MappingsLive(db)
    && forall p | p in db.products :: p.id < db.nextId
  }

  lemma LiveIff(products: seq<Product>, id: Id)
    ensures Live(products, id) <==> exists p :: p in products && p.id == id
  {
    forall p | p in products && p.id == id ensures Live(products, id) {
      assert HasProductId(id)(p);
    }
  }

  // What every event but a merge does to the catalogue: it only grows, under new ids.
  ghost predicate CatalogueGrows(db: Db, after: Db) {
    && db.nextId <= after.nextId
    && db.products <= after.products && db.mappings <= after.mappings
    && (forall p | p in after.products && p !in db.products :: db.nextId <= p.id < after.nextId)
    && (MappingsLive(db) ==> MappingsLive(after))
  }

  // Resolving a record's product touches the catalogue and the mappings alone.
  ghost predicate CatalogueOnly(db: Db, after: Db) {
    after == db.(nextId := after.nextId, brands := after.brands, categories := after.categories,
                 products := after.products, mappings := after.mappings)
  }

  lemma MappedCatalogueOnly(env: Env, db: Db, storeId: Id, configId: Id, r: ProductRecord)
    ensures CatalogueOnly(db, Mapped(env, db, storeId, configId, r).0)
  {}

  lemma MappedAppends(env: Env, db: Db, storeId: Id, configId: Id, r: ProductRecord)
    ensures var after := Mapped(env, db, storeId, configId, r).0;
            && db.nextId <= after.nextId && db.products <= after.products && db.mappings <= after.mappings
            && forall p | p in after.products && p !in db.products :: db.nextId <= p.id < after.nextId
  {}

  lemma MappedGrows(env: Env, db: Db, storeId: Id, configId: Id, r: ProductRecord)
    ensures CatalogueGrows(db, Mapped(env, db, storeId, configId, r).0)
    ensures CatalogueOnly(db, Mapped(env, db, storeId, configId, r).0)
  {
    MappedCatalogueOnly(env, db, storeId, configId, r);
    MappedAppends(env, db, storeId, configId, r);
    if MappingsLive(db) { MappedKeeps(env, db, storeId, configId, r); }
  }

  lemma ResolvedGrows(env: Env, db: Db, storeId: Id, configId: Option<Id>, r: Record)
    requires Resolved(env, db, storeId, configId, r).Ok?
    ensures CatalogueGrows(db, Resolved(env, db, storeId, configId, r).value.0)
    ensures CatalogueOnly(db, Resolved(env, db, storeId, configId, r).value.0)
  {
    if r.productId.None? { MappedGrows(env, db, storeId, configId.value, r.product.value); }
  }

  lemma OfferStoredGrows(db: Db, storeId: Id, productId: Id, r: Record, prices: EurPrices, now: int)
    requires OfferStored(db, storeId, productId, r, prices, now).Ok?
    ensures var after := OfferStored(db, storeId, productId, r, prices, now).value.0;
            && after.products == db.products && after.mappings == db.mappings && after.nextId >= db.nextId
  {}

  lemma WriteEventGrows(env: Env, db: Db, e: Event)
    requires !e.ProductsMerged?
    ensures CatalogueGrows(db, AfterWriteEvent(env, db, e))
  {
    match e
    case FeedRecord(storeId, configId, t) =>
      var prices, resolved := NormalizedPrices(env, db.rates, t.record), Resolved(env, db, storeId, configId, t.record);
      if prices.Ok? && resolved.Ok? {
        ResolvedGrows(env, db, storeId, configId, t.record);
        if OfferStored(resolved.value.0, storeId, resolved.value.1, t.record, prices.value, t.at).Ok? {
          OfferStoredGrows(resolved.value.0, storeId, resolved.value.1, t.record, prices.value, t.at);
        }
      }
    case ProductCreated(brandId, categoryId, model, name, sku) =>
      ProductAddedGrows(db, brandId, categoryId, model, name, sku);
    case _ =>
  }

  lemma ProductAddedGrows(db: Db, brandId: Option<Id>, categoryId: Id, model: Option<string>, name: string,
                          sku: Option<string>)
    ensures CatalogueGrows(db, ProductAdded(db, brandId, categoryId, model, name, sku))
  {
    var after := ProductAdded(db, brandId, categoryId, model, name, sku);
    if MappingsLive(db) {
      forall m | m in after.mappings ensures Live(after.products, m.productId) {
        LiveStays(db.products, after.products, m.productId);
      }
    }
  }

  // ---- resolution follows merges ----

  function MappedTo(db: Db, storeId: Id, configId: Id, externalId: string): Option<Id> {
    match Find(db.mappings, MappingOf(storeId, configId, externalId))
    case None => None
    case Some(m) => Some(m.productId)
  }

  lemma GrowthKeepsMapping(db: Db, after: Db, storeId: Id, configId: Id, externalId: string)
    requires CatalogueGrows(db, after) && MappedTo(db, storeId, configId, externalId).Some?
    ensures MappedTo(after, storeId, configId, externalId) == MappedTo(db, storeId, configId, externalId)
  {
    var more := after.mappings[|db.mappings|..];
    assert after.mappings == db.mappings + more;
    FindConcat(db.mappings, more, MappingOf(storeId, configId, externalId));
  }

  lemma {:induction false} RebindingKeepsFirst(mappings: seq<Mapping>, source: Id, target: Id,
                                               storeId: Id, configId: Id, externalId: string)
    requires Find(mappings, MappingOf(storeId, configId, externalId)).Some?
    ensures var m := Find(mappings, MappingOf(storeId, configId, externalId)).value;
            Find(Rebound(mappings, MappingRefers(source), MappingTo(target)), MappingOf(storeId, configId, externalId)) ==
              Some(if m.productId == source then m.(productId := target) else m)
  {
    if !MappingOf(storeId, configId, externalId)(mappings[0]) {
      RebindingKeepsFirst(mappings[1..], source, target, storeId, configId, externalId);
    }
  }

  lemma MergeMovesMapping(w: World, source: Id, target: Id, storeId: Id, configId: Id, externalId: string)
    requires Merged(RefsIn(w), source, target).Ok? && MappedTo(w.db, storeId, configId, externalId).Some?
    ensures var p := MappedTo(w.db, storeId, configId, externalId).value;
            MappedTo(AfterMerge(w, source, target).db, storeId, configId, externalId) ==
              Some(if p == source then target else p)
  {
    RebindingKeepsFirst(w.db.mappings, source, target, storeId, configId, externalId);
  }

  lemma LiveAfterRemoval(products: seq<Product>, removed: Id, id: Id)
    requires Live(products, id) && id != removed
    ensures Live(Filter(products, OtherProduct(removed)), id)
  {
    LiveIff(products, id);
    LiveIff(Filter(products, OtherProduct(removed)), id);
    var p :| p in products && p.id == id;
    assert p in Filter(products, OtherProduct(removed));
  }

  lemma MergeKeepsCatalogue(w: World, source: Id, target: Id)
    requires CatalogueOk(w.db)
    ensures CatalogueOk(AfterMerge(w, source, target).db)
  {
    if Merged(RefsIn(w), source, target).Ok? {
      var after := AfterMerge(w, source, target).db;
      forall m | m in after.mappings ensures Live(after.products, m.productId) {
        var i :| 0 <= i < |after.mappings| && after.mappings[i] == m;
        assert w.db.mappings[i] in w.db.mappings;
        LiveAfterRemoval(w.db.products, source, m.productId);
      }
    }
  }

  lemma ApplyKeepsCatalogue(env: Env, w: World, e: Event)
    requires CatalogueOk(w.db)
    ensures CatalogueOk(Apply(env, w, e).db)
    ensures w.db.nextId <= Apply(env, w, e).db.nextId
  {
    if e.ProductsMerged? {
      MergeKeepsCatalogue(w, e.source, e.target);
    } else {
      WriteEventGrows(env, w.db, e);
    }
  }

  lemma EventMovesMapping(env: Env, w: World, e: Event, storeId: Id, configId: Id, externalId: string)
    requires CatalogueOk(w.db) && MappedTo(w.db, storeId, configId, externalId).Some?
    ensures CatalogueOk(Apply(env, w, e).db)
    ensures MappedTo(Apply(env, w, e).db, storeId, configId, externalId) ==
              Some(Redirect(MergeOf(w, e), MappedTo(w.db, storeId, configId, externalId).value))
  {
    ApplyKeepsCatalogue(env, w, e);
    if e.ProductsMerged? {
      if Merged(RefsIn(w), e.source, e.target).Ok? {
        MergeMovesMapping(w, e.source, e.target, storeId, configId, externalId);
      }
    } else {
      WriteEventGrows(env, w.db, e);
      GrowthKeepsMapping(w.db, Apply(env, w, e).db, storeId, configId, externalId);
    }
  }

  lemma MappedIsLive(db: Db, storeId: Id, configId: Id, externalId: string)
    requires CatalogueOk(db) && MappedTo(db, storeId, configId, externalId).Some?
    ensures Live(db.products, MappedTo(db, storeId, configId, externalId).value)
  {
    var m := Find(db.mappings, MappingOf(storeId, configId, externalId)).value;
    assert m in db.mappings;
  }

  lemma ChainStep(m: Option<(Id, Id)>, merges: seq<(Id, Id)>, p: Id)
    ensures ChainEnd((if m.Some? then [m.value] else []) + merges, p) == ChainEnd(merges, Redirect(m, p))
  {
    if m.Some? {
      assert ([m.value] + merges)[1..] == merges;
    } else {
      assert [] + merges == merges;
    }
  }

  // Once a listing of a source is mapped to a product, it is mapped, after any history, to the
  // product at the end of that product's merge chain, and that product exists.
  lemma {:induction false} ResolutionFollowsMerges(env: Env, w: World, events: seq<Event>,
                                                   storeId: Id, configId: Id, externalId: string)
    requires CatalogueOk(w.db) && MappedTo(w.db, storeId, configId, externalId).Some?
    ensures var p := MappedTo(w.db, storeId, configId, externalId).value;
            var after := Run(env, w, events).db;
            var end := ChainEnd(MergesOf(env, w, events), p);
            MappedTo(after, storeId, configId, externalId) == Some(end) && Live(after.products, end)
    decreases |events|
  {
    if events != [] {
      var e, rest, next := events[0], events[1..], Apply(env, w, events[0]);
      EventMovesMapping(env, w, e, storeId, configId, externalId);
      ResolutionFollowsMerges(env, next, rest, storeId, configId, externalId);
      ChainStep(MergeOf(w, e), MergesOf(env, next, rest), MappedTo(w.db, storeId, configId, externalId).value);
    } else {
      MappedIsLive(w.db, storeId, configId, externalId);
    }
  }

  // The record that first resolved to p, met again after any history, resolves to the end of p's
  // merge chain and creates nothing.
  lemma ResolvedAgain(env: Env, w: World, events: seq<Event>, storeId: Id, configId: Id, r: Record)
    requires CatalogueOk(w.db) && r.productId.None? && r.product.Some?
    ensures var (first, p) := Mapped(env, w.db, storeId, configId, r.product.value);
            var start := w.(db := first);
            var later := Run(env, start, events).db;
            Resolved(env, later, storeId, Some(configId), r) ==
              Ok((later, ChainEnd(MergesOf(env, start, events), p)))
  {
    var record := r.product.value;
    var (first, p) := Mapped(env, w.db, storeId, configId, record);
    MappedGrows(env, w.db, storeId, configId, record);
    MappedIsMapped(env, w.db, storeId, configId, record);
    ResolutionFollowsMerges(env, w.(db := first), events, storeId, configId, record.externalProductId);
  }

  lemma MappedIsMapped(env: Env, db: Db, storeId: Id, configId: Id, r: ProductRecord)
    ensures var (after, p) := Mapped(env, db, storeId, configId, r);
            MappedTo(after, storeId, configId, r.externalProductId) == Some(p)
  {
    var (after, p) := Mapped(env, db, storeId, configId, r);
    if Find(db.mappings, MappingOf(storeId, configId, r.externalProductId)).None? {
      var m := Mapping(storeId, configId, r.externalProductId, p);
      FindConcat(db.mappings, [m], MappingOf(storeId, configId, r.externalProductId));
    }
  }

  // A product merged away never comes back, whatever the sources deliver.
  lemma {:induction false} MergedAwayStaysAway(env: Env, w: World, events: seq<Event>, id: Id)
    requires id < w.db.nextId && !Live(w.db.products, id)
    ensures !Live(Run(env, w, events).db.products, id)
    decreases |events|
  {
    if events != [] {
      EventKeepsAway(env, w, events[0], id);
      MergedAwayStaysAway(env, Apply(env, w, events[0]), events[1..], id);
    }
  }

  lemma EventKeepsAway(env: Env, w: World, e: Event, id: Id)
    requires id < w.db.nextId && !Live(w.db.products, id)
    ensures id < Apply(env, w, e).db.nextId && !Live(Apply(env, w, e).db.products, id)
  {
    LiveIff(w.db.products, id);
    LiveIff(Apply(env, w, e).db.products, id);
    if !e.ProductsMerged? { WriteEventGrows(env, w.db, e); }
  }

  lemma MergeRemovesSource(w: World, source: Id, target: Id)
    requires Merged(RefsIn(w), source, target).Ok?
    ensures !Live(AfterMerge(w, source, target).db.products, source)
    ensures Live(AfterMerge(w, source, target).db.products, target)
  {
    LiveIff(AfterMerge(w, source, target).db.products, source);
    LiveIff(w.db.products, target);
    LiveIff(AfterMerge(w, source, target).db.products, target);
    var p :| p in w.db.products && p.id == target;
    assert p in AfterMerge(w, source, target).db.products;
  }

  // ---- the cache over histories ----

  lemma CoherentIgnoresCatalogue(db: Db, after: Db)
    requires Coherent(db) && db.nextId <= after.nextId
    requires after.offers == db.offers && after.snapshots == db.snapshots && after.analytics == db.analytics
    ensures Coherent(after)
  {}

  lemma StoringKeepsCoherent(db: Db, storeId: Id, productId: Id, r: Record, prices: EurPrices, now: int)
    requires Coherent(db) && OfferStored(db, storeId, productId, r, prices, now).Ok?
    ensures Coherent(OfferStored(db, storeId, productId, r, prices, now).value.0)
  {
    match Find(db.offers, Clashes(storeId, Some(r.externalId)))
    case None => CreateKeepsCoherent(db, PayloadOf(r, prices, storeId, productId), now);
    case Some(o) => UpdateKeepsCoherent(db, o, Refreshed(o, r, prices), now);
  }

  lemma RecordKeepsCoherent(env: Env, db: Db, storeId: Id, configId: Option<Id>, t: Timed)
    requires Coherent(db)
    ensures Coherent(Processed(env, db, storeId, configId, t).0)
  {
    var prices, resolved := NormalizedPrices(env, db.rates, t.record), Resolved(env, db, storeId, configId, t.record);
    if prices.Ok? && resolved.Ok? {
      ResolvedGrows(env, db, storeId, configId, t.record);
      CoherentIgnoresCatalogue(db, resolved.value.0);
      if OfferStored(resolved.value.0, storeId, resolved.value.1, t.record, prices.value, t.at).Ok? {
        StoringKeepsCoherent(resolved.value.0, storeId, resolved.value.1, t.record, prices.value, t.at);
      }
    }
  }

  lemma WriteEventKeepsCoherent(env: Env, db: Db, e: Event)
    requires Coherent(db) && !e.ProductsMerged?
    ensures Coherent(AfterWriteEvent(env, db, e))
  {
    match e
    case FeedRecord(storeId, configId, t) => RecordKeepsCoherent(env, db, storeId, configId, t);
    case OfferPosted(payload, at) =>
      if OfferCreated(db, payload, at).Ok? { CreateKeepsCoherent(db, payload, at); }
    case OfferPatched(id, patch, at) =>
      match Find(db.offers, WithId(id)) {
        case None =>
        case Some(o) => UpdateKeepsCoherent(db, o, Patched(o, patch), at);
      }
    case AnalyticsRecomputed(productId, at) => RecomputeKeepsCoherent(db, productId, at);
    case RateCreated(rate) => CoherentIgnoresCatalogue(db, AfterWriteEvent(env, db, e));
    case RatesImported(quotes, currencies, origin, validAt) => CoherentIgnoresCatalogue(db, AfterWriteEvent(env, db, e));
    case BrandCreated(name, normalizedName) => CoherentIgnoresCatalogue(db, AfterWriteEvent(env, db, e));
    case CategoryCreated(slug, name) => CoherentIgnoresCatalogue(db, AfterWriteEvent(env, db, e));
    case ProductCreated(brandId, categoryId, model, name, sku) =>
      CoherentIgnoresCatalogue(db, AfterWriteEvent(env, db, e));
  }

  lemma EventKeepsCoherent(env: Env, w: World, e: Event)
    requires Coherent(w.db) && !e.ProductsMerged?
    ensures Coherent(Apply(env, w, e).db)
  {
    WriteEventKeepsCoherent(env, w.db, e);
    assert Apply(env, w, e).db == AfterWriteEvent(env, w.db, e);
  }

  // A merge keeps the agreement exactly if one of the two products has no analytics row. Two
  // products with offers both have one, so merging them always ends it; so does merging products
  // that were only recomputed.
  lemma MergeKeepsCacheIff(w: World, source: Id, target: Id)
    requires Coherent(w.db) && Merged(RefsIn(w), source, target).Ok?
    ensures Coherent(AfterMerge(w, source, target).db) <==>
              !HasRow(w.db.analytics, source) || !HasRow(w.db.analytics, target)
  {
    MergedCoherentIff(w.db, AfterMerge(w, source, target).db, source, target);
  }

  // What an operator can see before a merge: one of the two products has no row.
  ghost predicate MergeSafe(w: World, e: Event) {
    match MergeOf(w, e)
    case None => true
    case Some(m) => !HasRow(w.db.analytics, m.0) || !HasRow(w.db.analytics, m.1)
  }

  ghost predicate MergesSafe(env: Env, w: World, events: seq<Event>)
    decreases |events|
  {
    events != [] ==> MergeSafe(w, events[0]) && MergesSafe(env, Apply(env, w, events[0]), events[1..])
  }

  ghost predicate AgreesThroughout(env: Env, w: World, events: seq<Event>)
    decreases |events|
  {
    Coherent(w.db) && (events != [] ==> AgreesThroughout(env, Apply(env, w, events[0]), events[1..]))
  }

  lemma EventCoherentIff(env: Env, w: World, e: Event)
    requires Coherent(w.db)
    ensures Coherent(Apply(env, w, e).db) <==> MergeSafe(w, e)
  {
    if !e.ProductsMerged? {
      EventKeepsCoherent(env, w, e);
    } else if Merged(RefsIn(w), e.source, e.target).Ok? {
      MergeKeepsCacheIff(w, e.source, e.target);
    }
  }

  // Over a history the cache agrees with the log at every moment exactly if each merge in it finds
  // one of its products without a row.
  lemma {:induction false} CacheAgreesIff(env: Env, w: World, events: seq<Event>)
    requires Coherent(w.db)
    ensures AgreesThroughout(env, w, events) <==> MergesSafe(env, w, events)
    decreases |events|
  {
    if events != [] {
      EventCoherentIff(env, w, events[0]);
      if MergeSafe(w, events[0]) {
        CacheAgreesIff(env, Apply(env, w, events[0]), events[1..]);
      }
    }
  }

  lemma {:induction false} CacheAlwaysAgrees(env: Env, w: World, events: seq<Event>)
    requires Coherent(w.db) && MergesSafe(env, w, events)
    ensures Coherent(Run(env, w, events).db)
    decreases |events|
  {
    if events != [] {
      EventCoherentIff(env, w, events[0]);
      CacheAlwaysAgrees(env, Apply(env, w, events[0]), events[1..]);
    }
  }

  lemma {:induction false} NoMergesAreSafe(env: Env, w: World, events: seq<Event>)
    requires forall e | e in events :: !e.ProductsMerged?
    ensures MergesSafe(env, w, events)
    decreases |events|
  {
    if events != [] {
      assert events[0] in events;
      NoMergesAreSafe(env, Apply(env, w, events[0]), events[1..]);
    }
  }

  // ---- what every reader finds ----

  const START := World(EMPTY, [], [], [], [])

  // The database a history leads to from the empty one.
  function Reached(env: Env, events: seq<Event>): Db { Run(env, START, events).db }

  lemma ReachedIsCoherent(env: Env, events: seq<Event>)
    requires MergesSafe(env, START, events)
    ensures Coherent(Reached(env, events))
  {
    EmptyIsCoherent();
    CacheAlwaysAgrees(env, START, events);
  }

  // In every state such a history reaches, the quote of an offer is its last snapshot, and its
  // flags mean what they say.
  lemma FlagsAlwaysMean(env: Env, events: seq<Event>, o: Offer)
    requires MergesSafe(env, START, events) && o in Reached(env, events).offers
    ensures var db := Reached(env, events);
            var flags := OfferFlags(db.analytics, o);
            && IsCurrent(db.snapshots, o)
            && (flags.isHistoricalMin <==> IsLowest(db, o.quote.eurPrice, o.productId, Some(o.storeId)))
            && (flags.isLowest10 <==> AmongLowestTenth(db, o))
            && (flags.isHistoricalMin ==> flags.isLowest10)
  {
    ReachedIsCoherent(env, events);
    FlagsMean(Reached(env, events), o);
    LowestTenthFlagMeans(Reached(env, events), o);
  }

  // In all of them an offer's product has one all-stores row, whose minimum is the lowest price ever
  // logged for the product and the lowest of the minima of its stores' rows.
  lemma MinimaAlwaysMean(env: Env, events: seq<Event>, o: Offer)
    requires MergesSafe(env, START, events) && o in Reached(env, events).offers
    ensures var db := Reached(env, events);
            var all := GetAnalytics(db.analytics, o.productId, None);
            && Distinct(db.analytics, AnalyticsKey())
            && all.Some? && all.value.minAllTime.Some?
            && IsLowest(db, all.value.minAllTime.value, o.productId, None)
            && (forall a | a in db.analytics && a.productId == o.productId && a.minAllTime.Some? ::
                  all.value.minAllTime.value <= a.minAllTime.value)
            && (exists a :: a in db.analytics && a.productId == o.productId && a.storeId.Some?
                            && a.minAllTime == all.value.minAllTime)
  {
    ReachedIsCoherent(env, events);
    var a := RowOfOffer(Reached(env, events), o, None);
    ProductMinimum(Reached(env, events), o);
  }

  // ---- rates over histories ----

  // One rate per currency and time, all of them positive.
  ghost predicate RatesOk(rates: seq<FxRate>) { Distinct(rates, Fx.Slot()) && Fx.RatesValid(rates) }

  lemma AddedRateOk(db: Db, rate: FxRate)
    requires RatesOk(db.rates)
    ensures RatesOk(RateAdded(db, rate).rates)
  {
    var r := rate.(currency := Fx.Upper(rate.currency));
    if Find(db.rates, Fx.SameSlot(r.currency, r.validAt)).None? {
      forall x | x in db.rates ensures Fx.Slot()(x) != Fx.Slot()(r) {
        assert !Fx.SameSlot(r.currency, r.validAt)(x);
      }
      DistinctAppend(db.rates, Fx.Slot(), r);
    }
  }

  lemma ResolvedKeepsRates(env: Env, db: Db, storeId: Id, configId: Option<Id>, t: Timed)
    ensures Processed(env, db, storeId, configId, t).0.rates == db.rates
  {
    var resolved := Resolved(env, db, storeId, configId, t.record);
    if resolved.Ok? {
      ResolvedGrows(env, db, storeId, configId, t.record);
    }
  }

  lemma EventKeepsRatesOk(env: Env, w: World, e: Event)
    requires RatesOk(w.db.rates)
    ensures RatesOk(Apply(env, w, e).db.rates)
  {
    match e
    case FeedRecord(storeId, configId, t) => ResolvedKeepsRates(env, w.db, storeId, configId, t);
    case RateCreated(rate) => AddedRateOk(w.db, rate);
    case RatesImported(quotes, currencies, origin, validAt) =>
      Fx.ImportKeepsValid(env.nearest, w.db.rates, quotes, Fx.Normalized(currencies), origin, validAt);
    case _ =>
  }

  lemma {:induction false} RunKeepsRatesOk(env: Env, w: World, events: seq<Event>)
    requires RatesOk(w.db.rates)
    ensures RatesOk(Run(env, w, events).db.rates)
    decreases |events|
  {
    if events != [] {
      EventKeepsRatesOk(env, w, events[0]);
      RunKeepsRatesOk(env, Apply(env, w, events[0]), events[1..]);
    }
  }

  // In every state a history reaches, a record whose old price is not below its price is stored
  // with an old euro price not below its euro price, unless the source gave the euro prices itself.
  lemma OldPricesStayOld(env: Env, events: seq<Event>, r: Record)
    requires Fx.RoundsToNearest(env.nearest)
    requires r.eurPrice.None? && r.sourceOldPrice.Some? && r.sourceOldPrice.value >= r.sourcePrice
    ensures var prices := NormalizedPrices(env, Reached(env, events).rates, r);
            prices.Ok? ==> prices.value.oldPrice.Some? && prices.value.oldPrice.value >= prices.value.price
  {
    RunKeepsRatesOk(env, START, events);
    Fx.ConversionMonotone(env.nearest, Reached(env, events).rates, r.sourcePrice, r.sourceOldPrice.value,
                          r.sourceCurrency, None);
  }

  lemma RunOfTwo(env: Env, w: World, e: Event, f: Event)
    ensures Run(env, w, [e, f]) == Apply(env, Apply(env, w, e), f)
  {
    RunOfOne(env, Apply(env, w, e), f);
    assert [e, f][1..] == [f];
  }

  lemma RunOfOne(env: Env, w: World, f: Event)
    ensures Run(env, w, [f]) == Apply(env, w, f)
  {
    assert [f][1..] == [];
    assert Run(env, Apply(env, w, f), []) == Apply(env, w, f);
  }

  lemma ConvertedPrice(env: Env, db: Db, rate: FxRate, r: Record)
    requires db.rates == [rate] && Fx.Upper(rate.currency) == rate.currency && rate.currency != Fx.EUR
    requires r.eurPrice.None? && r.sourceCurrency == rate.currency
    ensures var prices := NormalizedPrices(env, db.rates, r);
            && prices.Ok? && prices.value.rate == Some(rate.rateToEur)
            && prices.value.price == Fx.Price(env.nearest, r.sourcePrice, rate.rateToEur)
  {
    Fx.NewestRateIsUsed(db.rates, rate);
    Fx.ConvertsTo(env.nearest, db.rates, r.sourcePrice, r.sourceCurrency, None);
    PricesFailIff(env, db.rates, r);
    assert rate in db.rates;
  }

  lemma ConvertedRecordIsStored(env: Env, db: Db, rate: FxRate, storeId: Id, configId: Id, t: Timed)
    requires MappingsLive(db) && db.rates == [rate]
    requires Fx.Upper(rate.currency) == rate.currency && rate.currency != Fx.EUR
    requires t.record.eurPrice.None? && t.record.sourceCurrency == rate.currency
    requires t.record.productId.None? && t.record.product.Some?
    ensures exists o :: o in Processed(env, db, storeId, Some(configId), t).0.offers
                        && o.quote.fxRateToEur == Some(rate.rateToEur)
                        && o.quote.eurPrice == Fx.Price(env.nearest, t.record.sourcePrice, rate.rateToEur)
  {
    assert rate in db.rates;
    FailsIff(env, db, storeId, Some(configId), t.record, t.at);
    UpsertedOffer(env, db, storeId, Some(configId), t.record, t.at);
    ConvertedPrice(env, db, rate, t.record);
  }

  // Histories do reach converted prices: a rate is created, and a record in its currency is met.
  lemma ConvertedPriceIsReached(env: Env, rate: FxRate, storeId: Id, configId: Id, t: Timed)
    requires Fx.Upper(rate.currency) == rate.currency && rate.currency != Fx.EUR
    requires Fx.ValidRate(rate.currency, rate.rateToEur)
    requires t.record.eurPrice.None? && t.record.sourceCurrency == rate.currency
    requires t.record.productId.None? && t.record.product.Some?
    ensures var events := [RateCreated(rate), FeedRecord(storeId, Some(configId), t)];
            && MergesSafe(env, START, events)
            && exists o :: o in Reached(env, events).offers && o.quote.fxRateToEur == Some(rate.rateToEur)
                           && o.quote.eurPrice == Fx.Price(env.nearest, t.record.sourcePrice, rate.rateToEur)
  {
    var events := [RateCreated(rate), FeedRecord(storeId, Some(configId), t)];
    var rated := EMPTY.(rates := [rate]);
    NoMergesAreSafe(env, START, events);
    RunOfTwo(env, START, events[0], events[1]);
    assert Apply(env, START, events[0]).db == rated;
    ConvertedRecordIsStored(env, rated, rate, storeId, configId, t);
  }

  // ---- a short history that ends in disagreement ----

  lemma PostedOffer(env: Env, w: World, payload: OfferPayload, now: int)
    requires Coherent(w.db) && Insertable(w.db, payload)
    ensures var after := Apply(env, w, OfferPosted(payload, now));
            && Coherent(after.db)
            && after == w.(db := after.db) && after.db.products == w.db.products
            && after.db.offers == w.db.offers + [NewOffer(w.db.nextId, payload)]
  {
    EventKeepsCoherent(env, w, OfferPosted(payload, now));
  }

  // Two products with one offer each.
  ghost predicate TwoOffers(w: World, p: Product, q: Product) {
    && Coherent(w.db) && w.db.products == [p, q] && w.variants == []
    && |w.db.offers| == 2 && w.db.offers[0].productId == p.id && w.db.offers[1].productId == q.id
  }

  lemma FirstOfferPosted(env: Env, p: Product, q: Product, a: OfferPayload, now: int, w: World)
    requires a.productId == p.id && w == World(EMPTY.(nextId := p.id + q.id + 1, products := [p, q]), [], [], [], [])
    ensures var first := Apply(env, w, OfferPosted(a, now));
            && Coherent(first.db) && first.db.products == [p, q] && first.variants == []
            && first.db.offers == [NewOffer(w.db.nextId, a)]
  {
    CoherentIgnoresCatalogue(EMPTY, w.db);
    PostedOffer(env, w, a, now);
  }

  lemma SecondIsInsertable(db: Db, p: Product, q: Product, o: Offer, b: OfferPayload)
    requires db.products == [p, q] && db.offers == [o]
    requires p.id != q.id && b.productId == q.id && o.storeId != b.storeId
    ensures Insertable(db, b)
  {
    assert q in db.products && HasProductId(q.id)(q);
  }

  lemma TwoOffersOf(w: World, p: Product, q: Product, o: Offer, r: Offer)
    requires Coherent(w.db) && w.db.products == [p, q] && w.variants == [] && w.db.offers == [o] + [r]
    requires o.productId == p.id && r.productId == q.id
    ensures TwoOffers(w, p, q)
  {}

  lemma TwoProductsMerge(w: World, p: Product, q: Product)
    requires p.id != q.id && w.db.products == [p, q] && w.variants == []
    ensures Merged(RefsIn(w), p.id, q.id).Ok?
  {
    var t := RefsIn(w);
    assert Find(t.products, HasProductId(p.id)) == Some(p) && Find(t.products, HasProductId(q.id)).Some?;
    assert MovedRefs(t, p.id, q.id).variants == [];
  }

  // So a short history ends in disagreement: two products, one offer each, one merge.
  lemma OfferOfferMerge(env: Env, p: Product, q: Product, a: OfferPayload, b: OfferPayload, now: int)
    requires p.id != q.id && a.productId == p.id && b.productId == q.id && a.storeId != b.storeId
    ensures var w := World(EMPTY.(nextId := p.id + q.id + 1, products := [p, q]), [], [], [], []);
            var offered := Apply(env, Apply(env, w, OfferPosted(a, now)), OfferPosted(b, now));
            Coherent(offered.db) && !Coherent(AfterMerge(offered, p.id, q.id).db)
  {
    var w := World(EMPTY.(nextId := p.id + q.id + 1, products := [p, q]), [], [], [], []);
    var offered := Apply(env, Apply(env, w, OfferPosted(a, now)), OfferPosted(b, now));
    FirstOfferPosted(env, p, q, a, now, w);
    var first := Apply(env, w, OfferPosted(a, now));
    SecondIsInsertable(first.db, p, q, NewOffer(w.db.nextId, a), b);
    PostedOffer(env, first, b, now);
    TwoOffersOf(offered, p, q, NewOffer(w.db.nextId, a), NewOffer(first.db.nextId, b));
    TwoProductsMerge(offered, p, q);
    OfferHasRow(offered.db, offered.db.offers[0]);
    OfferHasRow(offered.db, offered.db.offers[1]);
    MergeKeepsCacheIff(offered, p.id, q.id);
  }
}
