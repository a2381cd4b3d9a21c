/** What a run of the notification job leaves, stated on the columns of watchlists, offers and
    products and on the price log: exactly the notifications that are due. */
module NotificationMeaning {
  import opened Prelude
  import opened Tables
  import opened Offers
  import opened Cache
  import opened CacheMeaning
  import opened Notifications

  // The offer can be bought, and its product is one the watchlist asks for.
  ghost predicate Asked(products: seq<Product>, w: Watchlist, o: Offer) {
    && (o.quote.availability == "in_stock" || o.quote.availability == "limited")
    && exists p :: p in products && p.id == o.productId && AsksFor(w, p)
  }

  predicate AsksFor(w: Watchlist, p: Product) {
    && (w.productId.None? || w.productId.value == p.id)
    && (w.categoryId.None? || w.categoryId.value == p.categoryId)
    && (w.brandId.None? || w.brandId == p.brandId)
  }

  // The four kinds of notification and when each is called for.
  ghost predicate CalledFor(db: Db, w: Watchlist, o: Offer, kind: string) {
    var price, discount := o.quote.eurPrice, o.quote.discountPercent;
    || (kind == "target_price" && w.targetPrice.Some? && price <= w.targetPrice.value)
    || (kind == "discount" && w.discountThreshold.Some? && discount.Some? && discount.value >= w.discountThreshold.value)
    || (kind == "historical_min" && w.notifyOnHistoricalMin && IsLowest(db, price, o.productId, Some(o.storeId)))
    || (kind == "lowest_10_percent_365d" && AmongLowestTenth(db, o))
  }

  ghost predicate Due(watchlists: seq<Watchlist>, db: Db, w: Watchlist, o: Offer, kind: string) {
    && w in watchlists && w.active && !w.archived
    && o in db.offers && Asked(db.products, w, o) && CalledFor(db, w, o, kind)
  }

  lemma MatchesIfAsked(products: seq<Product>, w: Watchlist, o: Offer)
    requires Distinct(products, ProductId())
    ensures Matches(products, w, o) <==> Asked(products, w, o)
  {
    forall p | p in products && p.id == o.productId ensures Find(products, HasProductId(o.productId)) == Some(p) {
      assert HasProductId(o.productId)(p);
      SameKeySameRow(products, ProductId(), p, Find(products, HasProductId(o.productId)).value);
    }
  }

  lemma RulesAreCalledFor(db: Db, w: Watchlist, o: Offer, kind: string)
    requires Coherent(db) && o in db.offers
    ensures kind in Rules(w, o, OfferFlags(db.analytics, o)) <==> CalledFor(db, w, o, kind)
  {
    FlagsMean(db, o);
    LowestTenthFlagMeans(db, o);
    KindsOf(w, o, OfferFlags(db.analytics, o), kind);
  }

  lemma KindsOf(w: Watchlist, o: Offer, flags: Flags, kind: string)
    ensures var price, discount := o.quote.eurPrice, o.quote.discountPercent;
            kind in Rules(w, o, flags) <==>
              || (kind == "target_price" && w.targetPrice.Some? && price <= w.targetPrice.value)
              || (kind == "discount" && w.discountThreshold.Some? && discount.Some? && discount.value >= w.discountThreshold.value)
              || (kind == "historical_min" && w.notifyOnHistoricalMin && flags.isHistoricalMin)
              || (kind == "lowest_10_percent_365d" && flags.isLowest10)
  {}

  lemma FiresIffDue(watchlists: seq<Watchlist>, db: Db, w: Watchlist, o: Offer, kind: string)
    requires Coherent(db) && Distinct(db.products, ProductId())
    ensures Trigger(w, o, kind) in Triggers(watchlists, db) <==> Due(watchlists, db, w, o, kind)
  {
    TriggersAreFiring(Trigger(w, o, kind), watchlists, db);
    if o in db.offers {
      MatchesIfAsked(db.products, w, o);
      RulesAreCalledFor(db, w, o, kind);
    }
  }

  // The row tells the watchlist's user of the offer, and waits for delivery.
  ghost predicate Tells(n: Notification, w: Watchlist, o: Offer, kind: string, at: int) {
    && n.userId == w.userId && n.watchlistId == Some(w.id) && n.requestId == w.sourceRequestId
    && n.offerId == Some(o.id) && n.kind == kind && n.status == Created && n.createdAt == at
  }

  predicate IsOf(n: Notification, w: Watchlist, o: Offer, kind: string) {
    n.watchlistId == Some(w.id) && n.offerId == Some(o.id) && n.kind == kind
  }

  ghost predicate OnlyRow(notes: seq<Notification>, i: nat, w: Watchlist, o: Offer, kind: string) {
    i < |notes| && forall j | 0 <= j < |notes| :: IsOf(notes[j], w, o, kind) <==> j == i
  }

  ghost predicate OneRow(notes: seq<Notification>, w: Watchlist, o: Offer, kind: string) {
    exists i: nat :: OnlyRow(notes, i, w, o, kind)
  }

  lemma {:induction false} AddedRowsTell(uuid: Printer, book: Book, triggers: seq<Trigger>, now: int)
    ensures var after := NotifiedAll(uuid, book, triggers, now).notes;
            && book.notes <= after
            && forall i | |book.notes| <= i < |after| ::
                 exists t :: t in triggers && Tells(after[i], t.watchlist, t.offer, t.kind, now)
  {
    if triggers != [] {
      var k := |triggers| - 1;
      AddedRowsTell(uuid, book, triggers[..k], now);
      assert triggers == triggers[..k] + [triggers[k]];
      var before := NotifiedAll(uuid, book, triggers[..k], now);
      assert Tells(NoteOf(uuid, before.nextId, triggers[k], now), triggers[k].watchlist, triggers[k].offer, triggers[k].kind, now);
    }
  }

  lemma OneRowIs(notes: seq<Notification>, w: Watchlist, o: Offer, kind: string)
    requires OneRowFor(notes, Trigger(w, o, kind))
    ensures OneRow(notes, w, o, kind)
  {
    var t := Trigger(w, o, kind);
    var n :| n in notes && IsFor(n, t);
    var i :| 0 <= i < |notes| && notes[i] == n;
    forall j | 0 <= j < |notes| ensures IsOf(notes[j], w, o, kind) <==> j == i {
      assert IsFor(notes[j], t) <==> IsOf(notes[j], w, o, kind);
    }
    assert OnlyRow(notes, i, w, o, kind);
  }

  ghost predicate DueAreTold(watchlists: seq<Watchlist>, db: Db, notes: seq<Notification>) {
    forall w, o, kind | Due(watchlists, db, w, o, kind) :: OneRow(notes, w, o, kind)
  }

  ghost predicate TellsOfDue(watchlists: seq<Watchlist>, db: Db, n: Notification, at: int) {
    exists w, o, kind :: Due(watchlists, db, w, o, kind) && Tells(n, w, o, kind, at)
  }

  lemma FiringAreTold(watchlists: seq<Watchlist>, db: Db, notes: seq<Notification>)
    requires Coherent(db) && Distinct(db.products, ProductId())
    requires forall t | Fires(t, watchlists, db) :: OneRowFor(notes, t)
    ensures DueAreTold(watchlists, db, notes)
  {
    forall w, o, kind | Due(watchlists, db, w, o, kind) ensures OneRow(notes, w, o, kind) {
      FiresIffDue(watchlists, db, w, o, kind);
      TriggersAreFiring(Trigger(w, o, kind), watchlists, db);
      OneRowIs(notes, w, o, kind);
    }
  }

  lemma TriggerTellsOfDue(watchlists: seq<Watchlist>, db: Db, n: Notification, t: Trigger, at: int)
    requires Coherent(db) && Distinct(db.products, ProductId())
    requires t in Triggers(watchlists, db) && Tells(n, t.watchlist, t.offer, t.kind, at)
    ensures TellsOfDue(watchlists, db, n, at)
  {
    assert t == Trigger(t.watchlist, t.offer, t.kind);
    FiresIffDue(watchlists, db, t.watchlist, t.offer, t.kind);
  }

  lemma AddedTellOfDue(watchlists: seq<Watchlist>, db: Db, uuid: Printer, book: Book, now: int)
    requires Coherent(db) && Distinct(db.products, ProductId())
    ensures var after := NotifiedAll(uuid, book, Triggers(watchlists, db), now).notes;
            book.notes <= after && forall i | |book.notes| <= i < |after| :: TellsOfDue(watchlists, db, after[i], now)
  {
    var triggers := Triggers(watchlists, db);
    var after := NotifiedAll(uuid, book, triggers, now).notes;
    AddedRowsTell(uuid, book, triggers, now);
    forall i | |book.notes| <= i < |after| ensures TellsOfDue(watchlists, db, after[i], now) {
      var t :| t in triggers && Tells(after[i], t.watchlist, t.offer, t.kind, now);
      TriggerTellsOfDue(watchlists, db, after[i], t, now);
    }
  }

  // Where cache and log agree, a run leaves one row for each watchlist, offer and kind that is due,
  // keeps the rows there were, and adds none that is not due.
  lemma GenerationNotifiesTheDue(uuid: Printer, book: Book, watchlists: seq<Watchlist>, db: Db, now: int)
    requires BookOk(uuid, book) && PrintsUuids(uuid, IdsInUse(book, watchlists, db.offers))
    requires Coherent(db) && Distinct(db.products, ProductId())
    ensures var after := NotifiedAll(uuid, book, Triggers(watchlists, db), now).notes;
            && DueAreTold(watchlists, db, after)
            && book.notes <= after
            && forall i | |book.notes| <= i < |after| :: TellsOfDue(watchlists, db, after[i], now)
  {
    GenerationIsCompleteAndIdempotent(uuid, book, watchlists, db, now, now);
    FiringAreTold(watchlists, db, NotifiedAll(uuid, book, Triggers(watchlists, db), now).notes);
    AddedTellOfDue(watchlists, db, uuid, book, now);
  }
}
