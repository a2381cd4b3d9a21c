/** Which records of a run fail, that failing records leave no trace, and what the counters and
    the status of a run say about its feed. */
module SyncRuns {
  import opened Prelude
  import opened Tables
  import opened Offers
  import opened Sync
  import Fx

  // ---- which records fail ----

  predicate HasRate(rates: seq<FxRate>, currency: string) {
    exists x | x in rates :: x.currency == Fx.Upper(currency)
  }

  // No rate for a currency that has to be converted, no product data, or no config to map it for.
  predicate Fails(rates: seq<FxRate>, configId: Option<Id>, r: Record) {
    || (r.eurPrice.None? && Fx.Upper(r.sourceCurrency) != Fx.EUR && !HasRate(rates, r.sourceCurrency))
    || (r.productId.None? && (r.product.None? || configId.None?))
  }

  predicate Live(products: seq<Product>, id: Id) { Find(products, HasProductId(id)).Some? }

  ghost predicate MappingsLive(db: Db) { forall m | m in db.mappings :: Live(db.products, m.productId) }

  predicate OwnProductLive(products: seq<Product>, r: Record) {
    r.productId.Some? ==> Live(products, r.productId.value)
  }

  // The record names a product that does not exist, for an offer the store does not list yet.
  predicate Dangling(db: Db, storeId: Id, r: Record) {
    !OwnProductLive(db.products, r) && Find(db.offers, Clashes(storeId, Some(r.externalId))).None?
  }

  lemma LiveStays(products: seq<Product>, more: seq<Product>, id: Id)
    requires Live(products, id) && products <= more
    ensures Live(more, id)
  {
    FindConcat(products, more[|products|..], HasProductId(id));
    assert more == products + more[|products|..];
  }

  lemma PricesFailIff(env: Env, rates: seq<FxRate>, r: Record)
    ensures NormalizedPrices(env, rates, r).Err? <==>
              r.eurPrice.None? && Fx.Upper(r.sourceCurrency) != Fx.EUR && !HasRate(rates, r.sourceCurrency)
    ensures NormalizedPrices(env, rates, r).Err? ==> NormalizedPrices(env, rates, r).error == NoFxRate
  {
    var c := Fx.Upper(r.sourceCurrency);
    Fx.UpperTwice(r.sourceCurrency);
    if c != Fx.EUR {
      Fx.LatestRateIsLatest(rates, c, None);
      if HasRate(rates, r.sourceCurrency) {
        var x :| x in rates && x.currency == c;
        assert Fx.RateFor(Fx.Upper(c), None)(x);
      }
    }
  }

  lemma WithProductKeeps(env: Env, db: Db, brandId: Option<Id>, categoryId: Id, r: ProductRecord)
    ensures var (after, id) := WithProduct(env, db, brandId, categoryId, r);
            && after == db.(nextId := after.nextId, products := after.products)
            && db.products <= after.products && Live(after.products, id)
  {
    WithProductFinds(env, db, brandId, categoryId, r);
  }

  lemma MappedKeeps(env: Env, db: Db, storeId: Id, configId: Id, r: ProductRecord)
    requires MappingsLive(db)
    ensures var (after, id) := Mapped(env, db, storeId, configId, r);
            && after == db.(nextId := after.nextId, brands := after.brands, categories := after.categories,
                            products := after.products, mappings := after.mappings)
            && db.products <= after.products
            && MappingsLive(after) && Live(after.products, id)
  {
    match Find(db.mappings, MappingOf(storeId, configId, r.externalProductId))
    case Some(m) =>
    case None =>
      var (db1, brandId) := WithBrand(env, db, r.brandName);
      var (db2, categoryId) := WithCategory(db1, r.categorySlug, r.categoryName);
      WithProductKeeps(env, db2, brandId, categoryId, r);
      var (after, id) := WithProduct(env, db2, brandId, categoryId, r);
      AppendLiveMapping(db, after.products, Mapping(storeId, configId, r.externalProductId, id));
  }

  lemma AppendLiveMapping(db: Db, products: seq<Product>, m: Mapping)
    requires MappingsLive(db) && db.products <= products && Live(products, m.productId)
    ensures forall x | x in db.mappings + [m] :: Live(products, x.productId)
  {
    forall x | x in db.mappings ensures Live(products, x.productId) {
      LiveStays(db.products, products, x.productId);
    }
  }

  // What resolving does to the tables a later record looks at.
  lemma ResolvedKeeps(env: Env, db: Db, storeId: Id, configId: Option<Id>, r: Record)
    requires MappingsLive(db) && Resolved(env, db, storeId, configId, r).Ok?
    ensures var (after, id) := Resolved(env, db, storeId, configId, r).value;
            && after == db.(nextId := after.nextId, brands := after.brands, categories := after.categories,
                            products := after.products, mappings := after.mappings)
            && db.products <= after.products && MappingsLive(after)
            && (if r.productId.Some? then after == db && id == r.productId.value else Live(after.products, id))
  {
    if r.productId.None? {
      MappedKeeps(env, db, storeId, configId.value, r.product.value);
    }
  }

  lemma StoredIff(db: Db, storeId: Id, productId: Id, r: Record, prices: EurPrices, now: int)
    ensures var s := OfferStored(db, storeId, productId, r, prices, now);
            && (s.Ok? <==> Live(db.products, productId)
                           || Find(db.offers, Clashes(storeId, Some(r.externalId))).Some?)
            && (s.Ok? ==> && s.value.0.rates == db.rates && s.value.0.products == db.products
                          && s.value.0.mappings == db.mappings)
  {}

  // With live products behind mappings, exactly the listed conditions fail a record.
  lemma FailsIff(env: Env, db: Db, storeId: Id, configId: Option<Id>, r: Record, now: int)
    requires MappingsLive(db)
    ensures Upserted(env, db, storeId, configId, r, now).Err? <==>
              Fails(db.rates, configId, r) || Dangling(db, storeId, r)
    ensures var u := Upserted(env, db, storeId, configId, r, now);
            u.Ok? ==> && u.value.0.rates == db.rates && db.products <= u.value.0.products
                      && MappingsLive(u.value.0)
  {
    PricesFailIff(env, db.rates, r);
    if !Fails(db.rates, configId, r) {
      ResolvedKeeps(env, db, storeId, configId, r);
      var (after, id) := Resolved(env, db, storeId, configId, r).value;
      StoredIff(after, storeId, id, r, NormalizedPrices(env, db.rates, r).value, now);
    }
  }

  // Which error a record that fails gives: prices first, then the product, then the offer.
  lemma FailsAs(env: Env, db: Db, storeId: Id, configId: Option<Id>, r: Record, now: int)
    requires MappingsLive(db) && Upserted(env, db, storeId, configId, r, now).Err?
    ensures var e := Upserted(env, db, storeId, configId, r, now).error;
            var unpriced := r.eurPrice.None? && Fx.Upper(r.sourceCurrency) != Fx.EUR && !HasRate(db.rates, r.sourceCurrency);
            && (e == NoFxRate <==> unpriced)
            && (e == NoProductData <==> !unpriced && r.productId.None? && r.product.None?)
            && (e == NoConfigId <==> !unpriced && r.productId.None? && r.product.Some? && configId.None?)
            && (e == Rejected ==> Dangling(db, storeId, r))
  {
    PricesFailIff(env, db.rates, r);
    FailsIff(env, db, storeId, configId, r, now);
  }

  // A record that does not fail is an offer with the record's quote at the normalised prices.
  lemma UpsertedOffer(env: Env, db: Db, storeId: Id, configId: Option<Id>, r: Record, now: int)
    requires Upserted(env, db, storeId, configId, r, now).Ok?
    ensures NormalizedPrices(env, db.rates, r).Ok?
    ensures var (after, offer) := Upserted(env, db, storeId, configId, r, now).value;
            offer in after.offers && offer.quote == QuoteOf(r, NormalizedPrices(env, db.rates, r).value)
  {
    var prices, resolved := NormalizedPrices(env, db.rates, r).value, Resolved(env, db, storeId, configId, r).value.0;
    match Find(resolved.offers, Clashes(storeId, Some(r.externalId)))
    case None =>
    case Some(o) =>
      var i :| 0 <= i < |resolved.offers| && resolved.offers[i] == o;
      assert MapSeq(resolved.offers, ReplaceOffer(Refreshed(o, r, prices)))[i] == Refreshed(o, r, prices);
  }

  // ---- no trace ----

  // The records that are not lost.
  function Kept(feed: seq<Timed>, outcomes: seq<Outcome>): seq<Timed>
    requires |outcomes| == |feed|
  {
    if feed == [] then []
    else
      var n := |feed| - 1;
      Kept(feed[..n], outcomes[..n]) + (if outcomes[n].Lost? then [] else [feed[n]])
  }

  ghost predicate LosesCleanly(step: Step) { forall db: Db, t: Timed | step(db, t).1.Lost? :: step(db, t).0 == db }

  lemma StepsLoseCleanly(env: Env, storeId: Id, configId: Option<Id>)
    ensures LosesCleanly(StepFor(env, storeId, configId))
  {}

  lemma {:induction false} KeptRun(step: Step, db: Db, feed: seq<Timed>)
    requires LosesCleanly(step)
    ensures var (after, outcomes) := RunWith(step, db, feed);
            RunWith(step, db, Kept(feed, outcomes)) == (after, Filter(outcomes, IsStored()))
  {
    if feed != [] {
      var n := |feed| - 1;
      var t, rest := feed[n], feed[..n];
      assert feed == rest + [t];
      KeptRun(step, db, rest);
      var (before, outcomes) := RunWith(step, db, rest);
      var outcome := step(before, t).1;
      RunOneMore(step, db, rest, t);
      assert (outcomes + [outcome])[..n] == outcomes;
      FilterLast(outcomes, outcome, IsStored());
      RunOneMore(step, db, Kept(rest, outcomes), t);
      assert Kept(rest, outcomes) + [] == Kept(rest, outcomes);
    }
  }

  // A run ends in the state of the run over the records that are not lost, and stores the same
  // offers in the same order.
  lemma FailuresLeaveNoTrace(env: Env, db: Db, storeId: Id, configId: Option<Id>, feed: seq<Timed>)
    ensures var (after, outcomes) := RunRecords(env, db, storeId, configId, feed);
            RunRecords(env, db, storeId, configId, Kept(feed, outcomes)) == (after, Filter(outcomes, IsStored()))
  {
    StepsLoseCleanly(env, storeId, configId);
    KeptRun(StepFor(env, storeId, configId), db, feed);
  }

  // ---- which records are lost ----

  // What a step promises about failing: the listed conditions, and tables that only grow.
  ghost predicate FailsAsListed(step: Step, rates: seq<FxRate>, storeId: Id, configId: Option<Id>) {
    forall db: Db, t: Timed | db.rates == rates && MappingsLive(db) ::
      StepFailsAsListed(db, t, step(db, t), rates, storeId, configId)
  }

  ghost predicate StepFailsAsListed(db: Db, t: Timed, r: (Db, Outcome), rates: seq<FxRate>, storeId: Id, configId: Option<Id>) {
    && (r.1.Lost? <==> Fails(rates, configId, t.record) || Dangling(db, storeId, t.record))
    && r.0.rates == rates && db.products <= r.0.products && MappingsLive(r.0)
  }

  lemma StepsFailAsListed(env: Env, rates: seq<FxRate>, storeId: Id, configId: Option<Id>)
    ensures FailsAsListed(StepFor(env, storeId, configId), rates, storeId, configId)
  {
    var step := StepFor(env, storeId, configId);
    forall db: Db, t: Timed | db.rates == rates && MappingsLive(db)
      ensures StepFailsAsListed(db, t, step(db, t), rates, storeId, configId)
    {
      FailsIff(env, db, storeId, configId, t.record, t.at);
    }
  }

  lemma {:induction false} ListedRun(step: Step, db: Db, storeId: Id, configId: Option<Id>, feed: seq<Timed>)
    requires FailsAsListed(step, db.rates, storeId, configId) && MappingsLive(db)
    ensures var (after, outcomes) := RunWith(step, db, feed);
            && after.rates == db.rates && db.products <= after.products && MappingsLive(after)
            && forall i | 0 <= i < |feed| ::
                 outcomes[i].Lost? <==> Fails(db.rates, configId, feed[i].record)
                                        || Dangling(RunWith(step, db, feed[..i]).0, storeId, feed[i].record)
  {
    if feed != [] {
      var n := |feed| - 1;
      var t, rest := feed[n], feed[..n];
      ListedRun(step, db, storeId, configId, rest);
      var (before, outcomes) := RunWith(step, db, rest);
      assert StepFailsAsListed(before, t, step(before, t), db.rates, storeId, configId);
      forall i | 0 <= i < n ensures feed[..i] == rest[..i] {}
    }
  }

  // A record is lost exactly if one of the listed conditions holds when its turn comes; all of them
  // can be told from the feed when the records' own products exist.
  lemma RecordLostIff(env: Env, db: Db, storeId: Id, configId: Option<Id>, feed: seq<Timed>, i: nat)
    requires MappingsLive(db) && i < |feed|
    ensures RunRecords(env, db, storeId, configId, feed).1[i].Lost? <==>
              Fails(db.rates, configId, feed[i].record)
              || Dangling(RunRecords(env, db, storeId, configId, feed[..i]).0, storeId, feed[i].record)
    ensures OwnProductLive(db.products, feed[i].record) ==>
              (RunRecords(env, db, storeId, configId, feed).1[i].Lost? <==> Fails(db.rates, configId, feed[i].record))
  {
    StepsFailAsListed(env, db.rates, storeId, configId);
    ListedRun(StepFor(env, storeId, configId), db, storeId, configId, feed);
    ListedRun(StepFor(env, storeId, configId), db, storeId, configId, feed[..i]);
    if OwnProductLive(db.products, feed[i].record) {
      OwnProductStays(db.products, RunRecords(env, db, storeId, configId, feed[..i]).0.products, feed[i].record);
    }
  }

  lemma OwnProductStays(products: seq<Product>, more: seq<Product>, r: Record)
    requires OwnProductLive(products, r) && products <= more
    ensures OwnProductLive(more, r)
  {
    if r.productId.Some? { LiveStays(products, more, r.productId.value); }
  }

  // ---- counters and status ----

  lemma {:induction false} ProductsSeenBound(outcomes: seq<Outcome>)
    ensures |ProductsSeen(outcomes)| <= |Filter(outcomes, IsStored())|
  {
    if outcomes != [] {
      var n := |outcomes| - 1;
      var o, rest := outcomes[n], outcomes[..n];
      assert outcomes == rest + [o];
      ProductsSeenBound(rest);
      FilterLast(rest, o, IsStored());
      assert ProductsSeen(outcomes) == ProductsSeen(rest) + if o.Stored? then {o.offer.productId} else {};
    }
  }

  lemma NoneLostIff(outcomes: seq<Outcome>)
    ensures |Filter(outcomes, IsLost())| == 0 <==> forall i | 0 <= i < |outcomes| :: outcomes[i].Stored?
    ensures |Filter(outcomes, IsLost())| == |outcomes| <==> forall i | 0 <= i < |outcomes| :: outcomes[i].Lost?
  {
    FilterSplit(outcomes, IsLost(), IsStored());
    if forall i | 0 <= i < |outcomes| :: outcomes[i].Stored? {
      FilterNone(outcomes, IsLost());
    } else {
      var i :| 0 <= i < |outcomes| && outcomes[i].Lost?;
      assert outcomes[i] in Filter(outcomes, IsLost());
    }
    if forall i | 0 <= i < |outcomes| :: outcomes[i].Lost? {
      FilterAll(outcomes, IsLost());
    } else {
      var i :| 0 <= i < |outcomes| && outcomes[i].Stored?;
      assert outcomes[i] in Filter(outcomes, IsStored());
    }
  }

  // The run row accounts for every record of the feed, and its status follows from how many are lost.
  lemma RunAccounts(env: Env, db: Db, storeId: Id, configId: Option<Id>, feed: seq<Timed>, runId: Id, at: int)
    ensures var outcomes := RunRecords(env, db, storeId, configId, feed).1;
            var run := FinishedRun(runId, storeId, configId, outcomes, at);
            && run.offersSeen + run.failedOffers == |feed|
            && run.productsSeen <= run.offersSeen
            && run.productsSeen == |set i | 0 <= i < |feed| && outcomes[i].Stored? :: outcomes[i].offer.productId|
            && run.id == runId && run.storeId == storeId && run.configId == configId && run.startedAt == at
            && run.offersSeen == |Kept(feed, outcomes)|
            && (run.status == Succeeded <==> forall i | 0 <= i < |feed| :: !outcomes[i].Lost?)
            && (run.status == Failed <==> feed != [] && forall i | 0 <= i < |feed| :: outcomes[i].Lost?)
            && (run.status == PartiallyFailed <==> run.status != Succeeded && run.status != Failed)
  {
    var outcomes := RunRecords(env, db, storeId, configId, feed).1;
    FailuresLeaveNoTrace(env, db, storeId, configId, feed);
    assert |Filter(outcomes, IsStored())| == |Kept(feed, outcomes)|;
    OutcomesAccount(outcomes);
    SeenByPlace(outcomes);
  }

  lemma SeenByPlace(outcomes: seq<Outcome>)
    ensures ProductsSeen(outcomes) == set i | 0 <= i < |outcomes| && outcomes[i].Stored? :: outcomes[i].offer.productId
  {
    var placed := set i | 0 <= i < |outcomes| && outcomes[i].Stored? :: outcomes[i].offer.productId;
    forall id | id in ProductsSeen(outcomes) ensures id in placed {
      var o :| o in outcomes && o.Stored? && o.offer.productId == id;
      var i :| 0 <= i < |outcomes| && outcomes[i] == o;
    }
  }

  lemma OutcomesAccount(outcomes: seq<Outcome>)
    ensures var lost, stored := |Filter(outcomes, IsLost())|, |Filter(outcomes, IsStored())|;
            && lost + stored == |outcomes|
            && |ProductsSeen(outcomes)| <= stored
            && (lost == 0 <==> forall i | 0 <= i < |outcomes| :: !outcomes[i].Lost?)
            && (lost == |outcomes| <==> forall i | 0 <= i < |outcomes| :: outcomes[i].Lost?)
  {
    FilterSplit(outcomes, IsLost(), IsStored());
    ProductsSeenBound(outcomes);
    NoneLostIff(outcomes);
  }

  // One item per record, in feed order, naming what became of it.
  lemma ItemsFollowFeed(env: Env, db: Db, storeId: Id, configId: Option<Id>, feed: seq<Timed>, runId: Id)
    requires MappingsLive(db)
    ensures var outcomes := RunRecords(env, db, storeId, configId, feed).1;
            var items := ItemsOf(runId, feed, outcomes);
            && |items| == |feed|
            && forall i | 0 <= i < |feed| ::
                 && items[i].runId == runId && items[i].externalId == feed[i].record.externalId
                 && (if outcomes[i].Lost? then
                       items[i].error == Some(outcomes[i].error) && items[i].offerId.None? && items[i].productId.None?
                     else
                       items[i].error.None? && items[i].offerId == Some(outcomes[i].offer.id)
                       && items[i].productId == Some(outcomes[i].offer.productId))
                 && (OwnProductLive(db.products, feed[i].record) ==>
                       (items[i].error.Some? <==> Fails(db.rates, configId, feed[i].record)))
  {
    forall i | 0 <= i < |feed|
      ensures OwnProductLive(db.products, feed[i].record) ==>
                (RunRecords(env, db, storeId, configId, feed).1[i].Lost? <==> Fails(db.rates, configId, feed[i].record))
    {
      RecordLostIff(env, db, storeId, configId, feed, i);
    }
  }
}
