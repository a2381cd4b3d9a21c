/** What resolving and storing a feed record comes to, stated on the rows themselves, and that
    records of one kind end at one product. */
module SyncMeaning {
  import opened Prelude
  import opened Tables
  import opened Offers
  import opened Sync
  import Fx

  // ---- brands and categories ----

  // The id of the first row with the slug, or with the normalised name.
  ghost predicate SlugIs(rows: seq<Category>, slug: string, id: Id) {
    exists i: nat :: i < |rows| && rows[i].slug == slug && rows[i].id == id && forall j: nat | j < i :: rows[j].slug != slug
  }

  ghost predicate NameIs(rows: seq<Brand>, name: string, id: Id) {
    exists i: nat :: i < |rows| && rows[i].normalizedName == name && rows[i].id == id
                     && forall j: nat | j < i :: rows[j].normalizedName != name
  }

  lemma FoundCategory(rows: seq<Category>, slug: string)
    ensures match Find(rows, CategoryOfSlug(slug))
            case None => forall c | c in rows :: c.slug != slug
            case Some(c) => SlugIs(rows, slug, c.id)
  {
    FindIsFirst(rows, CategoryOfSlug(slug));
    match Find(rows, CategoryOfSlug(slug))
    case None =>
      forall c | c in rows ensures c.slug != slug { assert !CategoryOfSlug(slug)(c); }
    case Some(c) =>
      var i :| 0 <= i < |rows| && rows[i] == c && forall j | 0 <= j < i :: !CategoryOfSlug(slug)(rows[j]);
      forall j: nat | j < i ensures rows[j].slug != slug { assert !CategoryOfSlug(slug)(rows[j]); }
  }

  lemma FoundBrand(rows: seq<Brand>, name: string)
    ensures match Find(rows, BrandNamed(name))
            case None => forall b | b in rows :: b.normalizedName != name
            case Some(b) => NameIs(rows, name, b.id)
  {
    FindIsFirst(rows, BrandNamed(name));
    match Find(rows, BrandNamed(name))
    case None =>
      forall b | b in rows ensures b.normalizedName != name { assert !BrandNamed(name)(b); }
    case Some(b) =>
      var i :| 0 <= i < |rows| && rows[i] == b && forall j | 0 <= j < i :: !BrandNamed(name)(rows[j]);
      forall j: nat | j < i ensures rows[j].normalizedName != name { assert !BrandNamed(name)(rows[j]); }
  }

  // A category is looked up by its slug; one that is missing is added under that slug and the name,
  // and from then on is the one found, whatever name comes with the slug.
  lemma CategoryIsKept(db: Db, slug: string, name: string, other: string)
    ensures var (after, id) := WithCategory(db, slug, name);
            && SlugIs(after.categories, slug, id)
            && ((exists c :: c in db.categories && c.slug == slug) ==> after == db)
            && ((forall c | c in db.categories :: c.slug != slug) ==>
                  && after == db.(nextId := db.nextId + 1, categories := after.categories)
                  && |after.categories| == |db.categories| + 1 && db.categories <= after.categories
                  && var c := after.categories[|db.categories|]; c.id == db.nextId && c.slug == slug && c.name == name)
            && WithCategory(after, slug, other) == (after, id)
  {
    var (after, id) := WithCategory(db, slug, name);
    FoundCategory(db.categories, slug);
    FoundCategory(after.categories, slug);
    if Find(db.categories, CategoryOfSlug(slug)).None? {
      var c := after.categories[|db.categories|];
      assert c in after.categories && c.slug == slug;
      FindConcat(db.categories, [c], CategoryOfSlug(slug));
    }
  }

  // The same for brands, looked up by their normalised names; no name means no brand.
  lemma BrandIsKept(env: Env, db: Db, name: Option<string>)
    ensures var (after, id) := WithBrand(env, db, name);
            && (id.None? <==> name.None? || name.value == "")
            && (id.None? ==> after == db)
            && (id.Some? ==>
                  && NameIs(after.brands, env.nameOf(name.value), id.value)
                  && ((exists b :: b in db.brands && b.normalizedName == env.nameOf(name.value)) ==> after == db)
                  && ((forall b | b in db.brands :: b.normalizedName != env.nameOf(name.value)) ==>
                        && after == db.(nextId := db.nextId + 1, brands := after.brands)
                        && |after.brands| == |db.brands| + 1 && db.brands <= after.brands
                        && var b := after.brands[|db.brands|];
                           b.id == db.nextId && b.name == name.value && b.normalizedName == env.nameOf(name.value)))
            && WithBrand(env, after, name) == (after, id)
  {
    var (after, id) := WithBrand(env, db, name);
    if Given(name) {
      var key := env.nameOf(name.value);
      FoundBrand(db.brands, key);
      FoundBrand(after.brands, key);
      if Find(db.brands, BrandNamed(key)).None? {
        var b := after.brands[|db.brands|];
        assert b in after.brands && b.normalizedName == key;
        FindConcat(db.brands, [b], BrandNamed(key));
      }
    }
  }

  // ---- products ----

  // What a product, or a record, is recognised by.
  function IdentityOf(env: Env, model: Option<string>, name: string): string {
    env.identityOf(if model.Some? && model.value != "" then model.value else name)
  }

  ghost predicate LooksLike(env: Env, p: Product, brandId: Option<Id>, categoryId: Id, r: ProductRecord) {
    && p.brandId == brandId && p.categoryId == categoryId
    && (IdentityOf(env, p.model, p.name) == IdentityOf(env, r.model, r.name)
        || env.identityOf(p.name) == env.identityOf(r.name))
  }

  ghost predicate FirstWithSku(products: seq<Product>, sku: string, id: Id) {
    exists i: nat :: i < |products| && products[i].sku == Some(sku) && products[i].id == id
                     && forall j: nat | j < i :: products[j].sku != Some(sku)
  }

  ghost predicate FirstAlike(env: Env, products: seq<Product>, brandId: Option<Id>, categoryId: Id, r: ProductRecord, id: Id) {
    exists i: nat :: i < |products| && LooksLike(env, products[i], brandId, categoryId, r) && products[i].id == id
                     && forall j: nat | j < i :: !LooksLike(env, products[j], brandId, categoryId, r)
  }

  ghost predicate SkuKnown(products: seq<Product>, sku: Option<string>) {
    sku.Some? && sku.value != "" && exists p :: p in products && p.sku == sku
  }

  ghost predicate AlikeKnown(env: Env, products: seq<Product>, brandId: Option<Id>, categoryId: Id, r: ProductRecord) {
    && |IdentityOf(env, r.model, r.name)| >= 4
    && exists p :: p in products && LooksLike(env, p, brandId, categoryId, r)
  }

  lemma FoundSku(products: seq<Product>, sku: string)
    ensures match Find(products, SkuIs(Some(sku)))
            case None => forall p | p in products :: p.sku != Some(sku)
            case Some(p) => FirstWithSku(products, sku, p.id)
  {
    FindIsFirst(products, SkuIs(Some(sku)));
    match Find(products, SkuIs(Some(sku)))
    case None =>
      forall p | p in products ensures p.sku != Some(sku) { assert !SkuIs(Some(sku))(p); }
    case Some(p) =>
      var i :| 0 <= i < |products| && products[i] == p && forall j | 0 <= j < i :: !SkuIs(Some(sku))(products[j]);
      forall j: nat | j < i ensures products[j].sku != Some(sku) { assert !SkuIs(Some(sku))(products[j]); }
  }

  ghost function Alike(env: Env, brandId: Option<Id>, categoryId: Id, r: ProductRecord): Product -> bool {
    (p: Product) => LooksLike(env, p, brandId, categoryId, r)
  }

  lemma FoundAlike(env: Env, products: seq<Product>, brandId: Option<Id>, categoryId: Id, r: ProductRecord)
    ensures match FindByIdentity(env, products, brandId, categoryId, r.model, r.name)
            case None => !AlikeKnown(env, products, brandId, categoryId, r)
            case Some(p) => AlikeKnown(env, products, brandId, categoryId, r)
                            && FirstAlike(env, products, brandId, categoryId, r, p.id)
  {
    var identity, alike := IdentityOf(env, r.model, r.name), Alike(env, brandId, categoryId, r);
    if |identity| >= 4 {
      forall p | p in products
        ensures alike(p) == (InGroup(brandId, categoryId)(p) && IdentityMatches(env, identity, r.name)(p))
      {
        assert IdentityText(env, p.model, p.name) == IdentityOf(env, p.model, p.name);
        assert alike(p) == LooksLike(env, p, brandId, categoryId, r);
        assert InGroup(brandId, categoryId)(p) == (p.categoryId == categoryId && p.brandId == brandId);
        assert IdentityMatches(env, identity, r.name)(p) ==
                 (IdentityText(env, p.model, p.name) == identity || env.identityOf(p.name) == env.identityOf(r.name));
      }
      FindInFilter(products, InGroup(brandId, categoryId), IdentityMatches(env, identity, r.name), alike);
      FindIsFirst(products, alike);
      match Find(products, alike)
      case None =>
        forall p | p in products ensures !LooksLike(env, p, brandId, categoryId, r) { assert !alike(p); }
      case Some(p) =>
        var i :| 0 <= i < |products| && products[i] == p && forall j | 0 <= j < i :: !alike(products[j]);
        forall j: nat | j < i ensures !LooksLike(env, products[j], brandId, categoryId, r) { assert !alike(products[j]); }
    }
  }

  // A record's product is the first of its SKU; else, if its identity has four characters or more,
  // the first of its brand and category that has the same identity or name; else a new one with the
  // record's columns.
  lemma ProductIsTheOne(env: Env, db: Db, brandId: Option<Id>, categoryId: Id, r: ProductRecord)
    ensures var (after, id) := WithProduct(env, db, brandId, categoryId, r);
            if SkuKnown(db.products, r.sku) then after == db && FirstWithSku(db.products, r.sku.value, id)
            else if AlikeKnown(env, db.products, brandId, categoryId, r)
            then after == db && FirstAlike(env, db.products, brandId, categoryId, r, id)
            else && id == db.nextId && after == db.(nextId := id + 1, products := after.products)
                 && |after.products| == |db.products| + 1 && db.products <= after.products
                 && IsNewProduct(after.products[|db.products|], id, brandId, categoryId, r)
  {
    FoundAlike(env, db.products, brandId, categoryId, r);
    if Given(r.sku) {
      FoundSku(db.products, r.sku.value);
    }
  }

  predicate IsNewProduct(p: Product, id: Id, brandId: Option<Id>, categoryId: Id, r: ProductRecord) {
    && p.id == id && p.brandId == brandId && p.categoryId == categoryId
    && p.model == r.model && p.name == r.name && p.sku == r.sku
  }

  // ---- records of one kind ----

  // The catalogue later on: rows were added at the end.
  ghost predicate Extends(db: Db, later: Db) {
    db.brands <= later.brands && db.categories <= later.categories && db.products <= later.products
  }

  // Same brand, category and identity, and an identity long enough to go by.
  ghost predicate SameKind(env: Env, r: ProductRecord, q: ProductRecord) {
    && (if r.brandName.Some? && r.brandName.value != ""
        then q.brandName.Some? && q.brandName.value != "" && env.nameOf(r.brandName.value) == env.nameOf(q.brandName.value)
        else q.brandName.None? || q.brandName.value == "")
    && r.categorySlug == q.categorySlug
    && IdentityOf(env, r.model, r.name) == IdentityOf(env, q.model, q.name)
    && env.identityOf(r.name) == env.identityOf(q.name)
    && |IdentityOf(env, r.model, r.name)| >= 4
  }

  // The record comes with product data but without an own product or a SKU, and is not mapped yet.
  ghost predicate ByIdentityOnly(db: Db, storeId: Id, configId: Id, r: Record) {
    && r.productId.None? && r.product.Some? && (r.product.value.sku.None? || r.product.value.sku.value == "")
    && forall m | m in db.mappings ::
         !(m.storeId == storeId && m.configId == configId && m.externalId == r.product.value.externalProductId)
  }

  lemma BrandStays(env: Env, db: Db, later: Db, name: Option<string>, other: Option<string>)
    requires WithBrand(env, db, name).0.brands <= later.brands && Given(name) == Given(other)
    requires Given(name) ==> env.nameOf(name.value) == env.nameOf(other.value)
    ensures WithBrand(env, later, other) == (later, WithBrand(env, db, name).1)
  {
    if Given(name) {
      BrandIsKept(env, db, name);
      var after := WithBrand(env, db, name).0;
      FindStays(after.brands, later.brands, BrandNamed(env.nameOf(name.value)));
    }
  }

  lemma CategoryStays(db: Db, later: Db, slug: string, name: string, other: string)
    requires WithCategory(db, slug, name).0.categories <= later.categories
    ensures WithCategory(later, slug, other) == (later, WithCategory(db, slug, name).1)
  {
    CategoryIsKept(db, slug, name, other);
    FindStays(WithCategory(db, slug, name).0.categories, later.categories, CategoryOfSlug(slug));
  }

  lemma FoundAgain(env: Env, products: seq<Product>, later: seq<Product>, brandId: Option<Id>, categoryId: Id,
                   r: ProductRecord, q: ProductRecord)
    requires IdentityOf(env, r.model, r.name) == IdentityOf(env, q.model, q.name)
    requires env.identityOf(r.name) == env.identityOf(q.name)
    requires products <= later && FindByIdentity(env, products, brandId, categoryId, r.model, r.name).Some?
    ensures FindByIdentity(env, later, brandId, categoryId, q.model, q.name) ==
              FindByIdentity(env, products, brandId, categoryId, r.model, r.name)
  {
    var group, more := InGroup(brandId, categoryId), later[|products|..];
    assert later == products + more;
    FilterConcat(products, more, group);
    var rows, identity := Filter(products, group), IdentityOf(env, r.model, r.name);
    FindConcat(rows, Filter(more, group), IdentityMatches(env, identity, r.name));
    assert IdentityMatches(env, identity, r.name) == IdentityMatches(env, identity, q.name);
  }

  lemma ProductStays(env: Env, db: Db, later: Db, brandId: Option<Id>, categoryId: Id, r: ProductRecord, q: ProductRecord)
    requires !Given(r.sku) && !Given(q.sku) && |IdentityOf(env, r.model, r.name)| >= 4
    requires IdentityOf(env, r.model, r.name) == IdentityOf(env, q.model, q.name)
    requires env.identityOf(r.name) == env.identityOf(q.name)
    requires WithProduct(env, db, brandId, categoryId, r).0.products <= later.products
    ensures WithProduct(env, later, brandId, categoryId, q) == (later, WithProduct(env, db, brandId, categoryId, r).1)
  {
    var (after, id) := WithProduct(env, db, brandId, categoryId, r);
    if KnownProduct(env, db.products, brandId, categoryId, r).None? {
      NewIsFound(env, db.products, after.products[|db.products|], brandId, categoryId, r);
    }
    FoundAgain(env, after.products, later.products, brandId, categoryId, r, q);
  }

  lemma NewIsFound(env: Env, products: seq<Product>, p: Product, brandId: Option<Id>, categoryId: Id, r: ProductRecord)
    requires FindByIdentity(env, products, brandId, categoryId, r.model, r.name).None?
    requires IsNewProduct(p, p.id, brandId, categoryId, r) && |IdentityOf(env, r.model, r.name)| >= 4
    ensures FindByIdentity(env, products + [p], brandId, categoryId, r.model, r.name) == Some(p)
  {
    var group, matches := InGroup(brandId, categoryId), IdentityMatches(env, IdentityOf(env, r.model, r.name), r.name);
    FilterLast(products, p, group);
    FindConcat(Filter(products, group), [p], matches);
    assert group(p) && matches(p);
  }

  function WithMapping(db: Db, storeId: Id, configId: Id, externalId: string, productId: Id): Db {
    db.(mappings := db.mappings + [Mapping(storeId, configId, externalId, productId)])
  }

  lemma ResolvedByIdentity(env: Env, db: Db, storeId: Id, configId: Id, r: Record)
    requires ByIdentityOnly(db, storeId, configId, r)
    ensures var p := r.product.value;
            var (db1, brandId) := WithBrand(env, db, p.brandName);
            var (db2, categoryId) := WithCategory(db1, p.categorySlug, p.categoryName);
            var (db3, productId) := WithProduct(env, db2, brandId, categoryId, p);
            Resolved(env, db, storeId, Some(configId), r) ==
              Ok((WithMapping(db3, storeId, configId, p.externalProductId, productId), productId))
            && db3.mappings == db.mappings
  {}

  lemma ResolvedLast(env: Env, db: Db, storeId: Id, configId: Id, r: Record)
    requires ByIdentityOnly(db, storeId, configId, r)
    ensures var p := r.product.value;
            var (db1, brandId) := WithBrand(env, db, p.brandName);
            var (db2, categoryId) := WithCategory(db1, p.categorySlug, p.categoryName);
            var after := Resolved(env, db, storeId, Some(configId), r);
            && after.Ok? && after.value.0.brands == db1.brands && after.value.0.categories == db2.categories
            && after.value.0.products == WithProduct(env, db2, brandId, categoryId, p).0.products
            && after.value.1 == WithProduct(env, db2, brandId, categoryId, p).1
  {
    ResolvedByIdentity(env, db, storeId, configId, r);
  }

  // A record is resolved; whatever is added to the catalogue afterwards, a record of the same kind,
  // from any source, resolves to the same product, and nothing but its mapping is written.
  lemma SameKindSameProduct(env: Env, db: Db, storeId: Id, configId: Id, r: Record,
                            later: Db, otherStoreId: Id, otherConfigId: Id, q: Record)
    requires ByIdentityOnly(db, storeId, configId, r) && ByIdentityOnly(later, otherStoreId, otherConfigId, q)
    requires SameKind(env, r.product.value, q.product.value)
    requires Resolved(env, db, storeId, Some(configId), r).Ok?
    requires Extends(Resolved(env, db, storeId, Some(configId), r).value.0, later)
    ensures var productId := Resolved(env, db, storeId, Some(configId), r).value.1;
            Resolved(env, later, otherStoreId, Some(otherConfigId), q) ==
              Ok((WithMapping(later, otherStoreId, otherConfigId, q.product.value.externalProductId, productId), productId))
  {
    var a, b := r.product.value, q.product.value;
    var (db1, brandId) := WithBrand(env, db, a.brandName);
    var (db2, categoryId) := WithCategory(db1, a.categorySlug, a.categoryName);
    ResolvedLast(env, db, storeId, configId, r);
    BrandStays(env, db, later, a.brandName, b.brandName);
    CategoryStays(db1, later, a.categorySlug, a.categoryName, b.categoryName);
    ProductStays(env, db2, later, brandId, categoryId, a, b);
    ResolvedByIdentity(env, later, otherStoreId, otherConfigId, q);
  }

  // ---- runs only add to the catalogue ----

  ghost predicate StepExtends(step: Step) { forall db: Db, t: Timed :: Extends(db, step(db, t).0) }

  lemma ResolvedExtends(env: Env, db: Db, storeId: Id, configId: Option<Id>, r: Record)
    requires Resolved(env, db, storeId, configId, r).Ok?
    ensures Extends(db, Resolved(env, db, storeId, configId, r).value.0)
  {}

  lemma RecordExtends(env: Env, db: Db, storeId: Id, configId: Option<Id>, t: Timed)
    ensures Extends(db, Processed(env, db, storeId, configId, t).0)
  {
    var resolved := Resolved(env, db, storeId, configId, t.record);
    if resolved.Ok? {
      ResolvedExtends(env, db, storeId, configId, t.record);
    }
  }

  lemma {:induction false} StepsExtend(step: Step, db: Db, feed: seq<Timed>)
    requires StepExtends(step)
    ensures Extends(db, RunWith(step, db, feed).0)
  {
    if feed != [] {
      var n := |feed| - 1;
      StepsExtend(step, db, feed[..n]);
      assert Extends(RunWith(step, db, feed[..n]).0, step(RunWith(step, db, feed[..n]).0, feed[n]).0);
    }
  }

  // So it is with any run between the two records.
  lemma SameKindAcrossRuns(env: Env, db: Db, storeId: Id, configId: Id, r: Record, runStoreId: Id, runConfigId: Option<Id>,
                           feed: seq<Timed>, otherStoreId: Id, otherConfigId: Id, q: Record)
    requires ByIdentityOnly(db, storeId, configId, r) && q.product.Some? && SameKind(env, r.product.value, q.product.value)
    requires Resolved(env, db, storeId, Some(configId), r).Ok?
    requires var later := RunRecords(env, Resolved(env, db, storeId, Some(configId), r).value.0, runStoreId, runConfigId, feed).0;
             ByIdentityOnly(later, otherStoreId, otherConfigId, q)
    ensures var (first, productId) := Resolved(env, db, storeId, Some(configId), r).value;
            var later := RunRecords(env, first, runStoreId, runConfigId, feed).0;
            var again := Resolved(env, later, otherStoreId, Some(otherConfigId), q);
            && again.Ok? && again.value.1 == productId
            && again.value.0.products == later.products && again.value.0.categories == later.categories
            && again.value.0.brands == later.brands
  {
    var first := Resolved(env, db, storeId, Some(configId), r).value.0;
    var step := StepFor(env, runStoreId, runConfigId);
    forall d: Db, t: Timed ensures Extends(d, step(d, t).0) {
      RecordExtends(env, d, runStoreId, runConfigId, t);
    }
    StepsExtend(step, first, feed);
    SameKindSameProduct(env, db, storeId, configId, r, RunRecords(env, first, runStoreId, runConfigId, feed).0,
                        otherStoreId, otherConfigId, q);
  }

  // ---- own products and mappings ----

  ghost predicate MapsTo(mappings: seq<Mapping>, storeId: Id, configId: Id, externalId: string, productId: Id) {
    exists i: nat :: i < |mappings| && IsMapping(mappings[i], storeId, configId, externalId) && mappings[i].productId == productId
                     && forall j: nat | j < i :: !IsMapping(mappings[j], storeId, configId, externalId)
  }

  predicate IsMapping(m: Mapping, storeId: Id, configId: Id, externalId: string) {
    m.storeId == storeId && m.configId == configId && m.externalId == externalId
  }

  // An own product id is taken as it is, and a mapped record leads where its mapping does; neither
  // writes anything.
  lemma KnownRecordsWriteNothing(env: Env, db: Db, storeId: Id, configId: Id, r: Record)
    ensures r.productId.Some? ==> Resolved(env, db, storeId, Some(configId), r) == Ok((db, r.productId.value))
    ensures r.productId.None? && r.product.Some?
            && (exists m :: m in db.mappings && IsMapping(m, storeId, configId, r.product.value.externalProductId)) ==>
              var v := Resolved(env, db, storeId, Some(configId), r);
              v.Ok? && v.value.0 == db && MapsTo(db.mappings, storeId, configId, r.product.value.externalProductId, v.value.1)
  {
    if r.productId.None? && r.product.Some? {
      var externalId := r.product.value.externalProductId;
      var p := MappingOf(storeId, configId, externalId);
      forall m ensures IsMapping(m, storeId, configId, externalId) == p(m) {}
      FindIsFirst(db.mappings, p);
      if m :| m in db.mappings && IsMapping(m, storeId, configId, externalId) {
        assert p(m);
        var i :| 0 <= i < |db.mappings| && db.mappings[i] == Find(db.mappings, p).value
                 && forall j | 0 <= j < i :: !p(db.mappings[j]);
        forall j: nat | j < i ensures !IsMapping(db.mappings[j], storeId, configId, externalId) { assert !p(db.mappings[j]); }
      }
    }
  }

  // ---- the stored offer ----

  predicate IsEuro(currency: string) {
    && |currency| == 3 && (currency[0] == 'E' || currency[0] == 'e')
    && (currency[1] == 'U' || currency[1] == 'u') && (currency[2] == 'R' || currency[2] == 'r')
  }

  // The rate is a newest one of the currency.
  ghost predicate NewestRate(rates: seq<FxRate>, currency: string, rate: FxRate) {
    && rate in rates && rate.currency == Fx.Upper(currency)
    && forall x | x in rates && x.currency == rate.currency :: x.validAt <= rate.validAt
  }

  function Converted(nearest: Fx.Rounding, amount: real, rate: real): real { Fx.Round2(nearest, amount * rate) }

  // The euro columns: the source's own if it gives a price; else the source prices themselves for
  // euro, or converted with one newest rate.
  ghost predicate Priced(env: Env, rates: seq<FxRate>, r: Record, price: real, oldPrice: Option<real>, rate: Option<real>) {
    if r.eurPrice.Some? then price == r.eurPrice.value && oldPrice == r.eurOldPrice && rate == r.fxRateToEur
    else if IsEuro(r.sourceCurrency) then price == r.sourcePrice && oldPrice == r.sourceOldPrice && rate == Some(1.0)
    else exists x :: NewestRate(rates, r.sourceCurrency, x) && rate == Some(x.rateToEur)
                     && price == Converted(env.nearest, r.sourcePrice, x.rateToEur)
                     && oldPrice == if r.sourceOldPrice.None? then None
                                    else Some(Converted(env.nearest, r.sourceOldPrice.value, x.rateToEur))
  }

  lemma EuroInAnyCase(s: string)
    ensures Fx.Upper(s) == "EUR" <==> IsEuro(s)
  {
    var u := Fx.Upper(s);
    if |s| == 3 {
      assert u == [u[0], u[1], u[2]];
    }
  }

  lemma RecordIsPriced(env: Env, rates: seq<FxRate>, r: Record)
    requires NormalizedPrices(env, rates, r).Ok?
    ensures var p := NormalizedPrices(env, rates, r).value; Priced(env, rates, r, p.price, p.oldPrice, p.rate)
  {
    var c := Fx.Upper(r.sourceCurrency);
    EuroInAnyCase(r.sourceCurrency);
    if r.eurPrice.None? && c != "EUR" {
      Fx.UpperTwice(r.sourceCurrency);
      Fx.LatestRateIsLatest(rates, c, None);
      var x := Fx.LatestRate(rates, c, None).value;
      assert Fx.RateFor(c, None)(x);
      forall y | y in rates && y.currency == c ensures y.validAt <= x.validAt { assert Fx.RateFor(c, None)(y); }
      assert NewestRate(rates, r.sourceCurrency, x);
    }
  }

  predicate Listing(o: Offer, storeId: Id, externalId: string) { o.storeId == storeId && o.externalId == Some(externalId) }

  // The columns a record gives its offer.
  ghost predicate CarriesRecord(env: Env, rates: seq<FxRate>, o: Offer, storeId: Id, r: Record) {
    && Listing(o, storeId, r.externalId) && o.productUrl == r.productUrl && o.sizes == r.sizes
    && o.quote.sourcePrice == r.sourcePrice && o.quote.sourceOldPrice == r.sourceOldPrice
    && o.quote.sourceCurrency == r.sourceCurrency
    && o.quote.discountPercent == r.discountPercent && o.quote.availability == r.availability
    && Priced(env, rates, r, o.quote.eurPrice, o.quote.eurOldPrice, o.quote.fxRateToEur)
  }

  // The table after the offer of a listing was written: a listed offer keeps its place, id and
  // product, and all others stay; one not listed before is added at the end, of the given product.
  ghost predicate OfferTableWritten(before: seq<Offer>, after: seq<Offer>, o: Offer, storeId: Id, externalId: string,
                                    productId: Id, nextId: Id)
  {
    if exists x :: x in before && Listing(x, storeId, externalId)
    then && |after| == |before| && o in after
         && (forall i | 0 <= i < |before| :: after[i] == if before[i].id == o.id then o else before[i])
         && (exists x :: x in before && Listing(x, storeId, externalId) && x.id == o.id && x.productId == o.productId)
    else after == before + [o] && o.productId == productId && o.id == nextId
  }

  lemma StoredIsWritten(db: Db, storeId: Id, productId: Id, r: Record, prices: EurPrices, now: int)
    requires OfferStored(db, storeId, productId, r, prices, now).Ok?
    ensures var (after, o) := OfferStored(db, storeId, productId, r, prices, now).value;
            && OfferTableWritten(db.offers, after.offers, o, storeId, r.externalId, productId, db.nextId)
            && after.snapshots == db.snapshots + [Snapshot(o.id, o.quote, now)]
            && o.quote == QuoteOf(r, prices) && Listing(o, storeId, r.externalId)
            && o.productUrl == r.productUrl && o.sizes == r.sizes
  {
    var clashes := Clashes(storeId, Some(r.externalId));
    forall x: Offer ensures clashes(x) == Listing(x, storeId, r.externalId) {}
    match Find(db.offers, clashes)
    case None =>
      forall x | x in db.offers ensures !Listing(x, storeId, r.externalId) { assert !clashes(x); }
    case Some(listed) =>
      assert Listing(listed, storeId, r.externalId);
      ReplacedIsListed(db.offers, listed, Refreshed(listed, r, prices));
  }

  // A record that is not refused becomes the offer of its listing, with the record's columns, and one
  // snapshot of that offer; the offer is of the product the record resolves to when it is new.
  lemma RecordBecomesOffer(env: Env, db: Db, storeId: Id, configId: Option<Id>, r: Record, now: int)
    requires Upserted(env, db, storeId, configId, r, now).Ok?
    ensures Resolved(env, db, storeId, configId, r).Ok?
    ensures var (after, o) := Upserted(env, db, storeId, configId, r, now).value;
            var (resolved, productId) := Resolved(env, db, storeId, configId, r).value;
            && CarriesRecord(env, db.rates, o, storeId, r)
            && OfferTableWritten(db.offers, after.offers, o, storeId, r.externalId, productId, resolved.nextId)
            && after.snapshots == db.snapshots + [Snapshot(o.id, o.quote, now)]
            && after.products == resolved.products && after.mappings == resolved.mappings
  {
    RecordIsPriced(env, db.rates, r);
    var (resolved, productId) := Resolved(env, db, storeId, configId, r).value;
    ResolvingKeepsOffers(env, db, storeId, configId, r);
    StoredIsWritten(resolved, storeId, productId, r, NormalizedPrices(env, db.rates, r).value, now);
  }

  lemma ResolvingKeepsOffers(env: Env, db: Db, storeId: Id, configId: Option<Id>, r: Record)
    requires Resolved(env, db, storeId, configId, r).Ok?
    ensures var after := Resolved(env, db, storeId, configId, r).value.0;
            after.offers == db.offers && after.snapshots == db.snapshots && after.rates == db.rates
  {}
}
