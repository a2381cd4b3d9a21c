/** Generating notifications (domains/notifications/service.py): one row per active watchlist,
    matching offer and triggered rule, however often the job runs. */
module Notifications {
  import opened Prelude
  import opened Tables
  import opened Offers

  // ---- triggers ----

  const TARGET_PRICE := "target_price"
  const DISCOUNT := "discount"
  const HISTORICAL_MIN := "historical_min"
  const LOWEST_10 := "lowest_10_percent_365d"

  datatype Trigger = Trigger(watchlist: Watchlist, offer: Offer, kind: string)

  predicate Available(o: Offer) { o.quote.availability == "in_stock" || o.quote.availability == "limited" }

  predicate Agrees(wanted: Option<Id>, actual: Option<Id>) { wanted.Some? ==> wanted == actual }

  // The join of an offer with its product, filtered by the criteria the watchlist has.
  predicate Matches(products: seq<Product>, w: Watchlist, o: Offer) {
    match Find(products, HasProductId(o.productId))
    case None => false
    case Some(p) =>
      && Available(o)
      && Agrees(w.productId, Some(o.productId))
      && Agrees(w.categoryId, Some(p.categoryId))
      && Agrees(w.brandId, p.brandId)
  }

  function Matching(products: seq<Product>, w: Watchlist): Offer -> bool { (o: Offer) => Matches(products, w, o) }

  function IsActive(): Watchlist -> bool { (w: Watchlist) => w.active && !w.archived }

  function Rules(w: Watchlist, o: Offer, flags: Flags): seq<string> {
    (if w.targetPrice.Some? && o.quote.eurPrice <= w.targetPrice.value then [TARGET_PRICE] else [])
    + (if w.discountThreshold.Some? && o.quote.discountPercent.Some?
          && o.quote.discountPercent.value >= w.discountThreshold.value then [DISCOUNT] else [])
    + (if w.notifyOnHistoricalMin && flags.isHistoricalMin then [HISTORICAL_MIN] else [])
    + (if flags.isLowest10 then [LOWEST_10] else [])
  }

  function OfOffer(w: Watchlist, o: Offer, kinds: seq<string>): seq<Trigger> {
    MapSeq(kinds, (kind: string) => Trigger(w, o, kind))
  }

  function OfFlagged(w: Watchlist, o: Offer, rows: seq<Analytics>): seq<Trigger> {
    OfOffer(w, o, Rules(w, o, OfferFlags(rows, o)))
  }

  function OfOffers(w: Watchlist, offers: seq<Offer>, rows: seq<Analytics>): seq<Trigger> {
    if offers == [] then []
    else OfOffers(w, offers[..|offers| - 1], rows) + OfFlagged(w, offers[|offers| - 1], rows)
  }

  function OfWatchlist(w: Watchlist, db: Db): seq<Trigger> {
    OfOffers(w, Filter(db.offers, Matching(db.products, w)), db.analytics)
  }

  function OfWatchlists(watchlists: seq<Watchlist>, db: Db): seq<Trigger> {
    if watchlists == [] then []
    else OfWatchlists(watchlists[..|watchlists| - 1], db) + OfWatchlist(watchlists[|watchlists| - 1], db)
  }

  lemma OneMoreKind(w: Watchlist, o: Offer, kinds: seq<string>, i: nat)
    requires i < |kinds|
    ensures OfOffer(w, o, kinds[..i + 1]) == OfOffer(w, o, kinds[..i]) + [Trigger(w, o, kinds[i])]
  {}

  lemma OneMoreOffer(w: Watchlist, offers: seq<Offer>, rows: seq<Analytics>, i: nat)
    requires i < |offers|
    ensures OfOffers(w, offers[..i + 1], rows) == OfOffers(w, offers[..i], rows) + OfFlagged(w, offers[i], rows)
  {
    assert offers[..i + 1][..i] == offers[..i];
  }

  lemma OneMoreWatchlist(watchlists: seq<Watchlist>, db: Db, i: nat)
    requires i < |watchlists|
    ensures OfWatchlists(watchlists[..i + 1], db) == OfWatchlists(watchlists[..i], db) + OfWatchlist(watchlists[i], db)
  {
    assert watchlists[..i + 1][..i] == watchlists[..i];
  }

  function Triggers(watchlists: seq<Watchlist>, db: Db): seq<Trigger> {
    OfWatchlists(Filter(watchlists, IsActive()), db)
  }

  // The triggers are exactly the rules of the matching offers of the active watchlists.
  ghost predicate Fires(t: Trigger, watchlists: seq<Watchlist>, db: Db) {
    && t.watchlist in watchlists && t.watchlist.active && !t.watchlist.archived
    && t.offer in db.offers && Matches(db.products, t.watchlist, t.offer)
    && t.kind in Rules(t.watchlist, t.offer, OfferFlags(db.analytics, t.offer))
  }

  lemma InOfOffer(t: Trigger, w: Watchlist, o: Offer, kinds: seq<string>)
    ensures t in OfOffer(w, o, kinds) <==> t.watchlist == w && t.offer == o && t.kind in kinds
  {
    if t.watchlist == w && t.offer == o && t.kind in kinds {
      var i :| 0 <= i < |kinds| && kinds[i] == t.kind;
      assert OfOffer(w, o, kinds)[i] == t;
    }
  }

  lemma {:induction false} InOfOffers(t: Trigger, w: Watchlist, offers: seq<Offer>, rows: seq<Analytics>)
    ensures t in OfOffers(w, offers, rows) <==>
              t.watchlist == w && t.offer in offers && t.kind in Rules(w, t.offer, OfferFlags(rows, t.offer))
  {
    if offers != [] {
      var n := |offers| - 1;
      InOfOffers(t, w, offers[..n], rows);
      InOfOffer(t, w, offers[n], Rules(w, offers[n], OfferFlags(rows, offers[n])));
      assert offers == offers[..n] + [offers[n]];
    }
  }

  lemma {:induction false} InOfWatchlists(t: Trigger, watchlists: seq<Watchlist>, db: Db)
    ensures t in OfWatchlists(watchlists, db) <==>
              && t.watchlist in watchlists && t.offer in Filter(db.offers, Matching(db.products, t.watchlist))
              && t.kind in Rules(t.watchlist, t.offer, OfferFlags(db.analytics, t.offer))
  {
    if watchlists != [] {
      var n := |watchlists| - 1;
      var w := watchlists[n];
      InOfWatchlists(t, watchlists[..n], db);
      InOfOffers(t, w, Filter(db.offers, Matching(db.products, w)), db.analytics);
      assert watchlists == watchlists[..n] + [w];
    }
  }

  lemma TriggersAreFiring(t: Trigger, watchlists: seq<Watchlist>, db: Db)
    ensures t in Triggers(watchlists, db) <==> Fires(t, watchlists, db)
  {
    InOfWatchlists(t, Filter(watchlists, IsActive()), db);
  }

  // ---- the dedupe key ----

  // How a row id is printed: 32 hexadecimal digits in groups of 8-4-4-4-12.
  predicate IsUuidText(s: string) {
    && |s| == 36
    && forall i | 0 <= i < 36 ::
         if i == 8 || i == 13 || i == 18 || i == 23 then s[i] == '-'
         else '0' <= s[i] <= '9' || 'a' <= s[i] <= 'f'
  }

  type Printer = Id -> string

  // The given ids print as UUIDs, and no two of them alike.
  ghost predicate PrintsUuids(uuid: Printer, ids: set<Id>) {
    && (forall id | id in ids :: IsUuidText(uuid(id)))
    && (forall a, b | a in ids && b in ids && uuid(a) == uuid(b) :: a == b)
  }

  function KeyText(watchlist: string, offer: string, kind: string): string {
    watchlist + ":" + offer + ":" + kind
  }

  function DedupeKey(uuid: Printer, watchlistId: Id, offerId: Id, kind: string): string {
    KeyText(uuid(watchlistId), uuid(offerId), kind)
  }

  lemma KeyTextInjective(a: string, b: string, c: string, x: string, y: string, z: string)
    requires IsUuidText(a) && IsUuidText(b) && IsUuidText(x) && IsUuidText(y)
    requires KeyText(a, b, c) == KeyText(x, y, z)
    ensures a == x && b == y && c == z
  {
    var k := KeyText(a, b, c);
    assert k[..36] == a && k[37..73] == b && k[74..] == c;
    assert KeyText(x, y, z)[..36] == x && KeyText(x, y, z)[37..73] == y && KeyText(x, y, z)[74..] == z;
  }

  // Two triples have the same key text only if they are the same triple.
  lemma DedupeKeyInjective(uuid: Printer, ids: set<Id>, w: Id, o: Id, kind: string, w': Id, o': Id, kind': string)
    requires PrintsUuids(uuid, ids) && {w, o, w', o'} <= ids
    requires DedupeKey(uuid, w, o, kind) == DedupeKey(uuid, w', o', kind')
    ensures w == w' && o == o' && kind == kind'
  {
    KeyTextInjective(uuid(w), uuid(o), kind, uuid(w'), uuid(o'), kind');
  }

  // ---- a printer of UUIDs ----

  function HexChar(d: nat): char
    requires d < 16
  {
    "0123456789abcdef"[d]
  }

  // The last digits of a number, leading zeros included.
  function HexDigits(n: nat, length: nat): (r: string)
    ensures |r| == length
    ensures forall i | 0 <= i < length :: '0' <= r[i] <= '9' || 'a' <= r[i] <= 'f'
  {
    if length == 0 then "" else HexDigits(n / 16, length - 1) + [HexChar(n % 16)]
  }

  function Sixteens(k: nat): nat { if k == 0 then 1 else 16 * Sixteens(k - 1) }

  lemma HexCharInjective(a: nat, b: nat)
    requires a < 16 && b < 16 && HexChar(a) == HexChar(b)
    ensures a == b
  {}

  lemma {:induction false} HexDigitsInjective(a: nat, b: nat, length: nat)
    requires a < Sixteens(length) && b < Sixteens(length) && HexDigits(a, length) == HexDigits(b, length)
    ensures a == b
  {
    if length > 0 {
      var x, y := HexDigits(a, length), HexDigits(b, length);
      assert x[..length - 1] == HexDigits(a / 16, length - 1) && y[..length - 1] == HexDigits(b / 16, length - 1);
      assert x[length - 1] == HexChar(a % 16) && y[length - 1] == HexChar(b % 16);
      HexCharInjective(a % 16, b % 16);
      HexDigitsInjective(a / 16, b / 16, length - 1);
    }
  }

  // The UUID whose 128 bits are the number.
  function Uuid(): Printer {
    (id: Id) => var t := HexDigits(id, 32);
                t[..8] + "-" + t[8..12] + "-" + t[12..16] + "-" + t[16..20] + "-" + t[20..]
  }

  lemma UuidDigits(id: Id)
    ensures IsUuidText(Uuid()(id))
    ensures var s := Uuid()(id); HexDigits(id, 32) == s[..8] + s[9..13] + s[14..18] + s[19..23] + s[24..]
  {
    var t, s := HexDigits(id, 32), Uuid()(id);
    assert s[..8] == t[..8] && s[9..13] == t[8..12] && s[14..18] == t[12..16];
    assert s[19..23] == t[16..20] && s[24..] == t[20..];
    assert t == t[..8] + t[8..12] + t[12..16] + t[16..20] + t[20..];
  }

  // All ids below 16^32, as many as there are UUIDs, can be printed.
  lemma UuidsPrint(ids: set<Id>)
    requires forall id | id in ids :: id < Sixteens(32)
    ensures PrintsUuids(Uuid(), ids)
  {
    forall a | a in ids ensures IsUuidText(Uuid()(a)) {
      UuidDigits(a);
    }
    forall a, b | a in ids && b in ids && Uuid()(a) == Uuid()(b) ensures a == b {
      UuidDigits(a);
      UuidDigits(b);
      HexDigitsInjective(a, b, 32);
    }
  }

  // ---- adding rows ----

  // The id counter and the notifications table.
  datatype Book = Book(nextId: Id, notes: seq<Notification>)

  function HasKey(key: string): Notification -> bool { (n: Notification) => n.dedupeKey == key }

  function KeyOfTrigger(uuid: Printer, t: Trigger): string {
    DedupeKey(uuid, t.watchlist.id, t.offer.id, t.kind)
  }

  function NoteOf(uuid: Printer, id: Id, t: Trigger, now: int): Notification {
    Notification(id, t.watchlist.userId, Some(t.watchlist.id), t.watchlist.sourceRequestId, Some(t.offer.id),
                 t.kind, Created, KeyOfTrigger(uuid, t), now)
  }

  function Notified(uuid: Printer, book: Book, t: Trigger, now: int): Book {
    if Find(book.notes, HasKey(KeyOfTrigger(uuid, t))).Some? then book
    else Book(book.nextId + 1, book.notes + [NoteOf(uuid, book.nextId, t, now)])
  }

  function NotifiedAll(uuid: Printer, book: Book, triggers: seq<Trigger>, now: int): Book {
    if triggers == [] then book
    else
      var n := |triggers| - 1;
      Notified(uuid, NotifiedAll(uuid, book, triggers[..n], now), triggers[n], now)
  }

  lemma {:induction false} NotifiedConcat(uuid: Printer, book: Book, a: seq<Trigger>, b: seq<Trigger>, now: int)
    ensures NotifiedAll(uuid, book, a + b, now) == NotifiedAll(uuid, NotifiedAll(uuid, book, a, now), b, now)
  {
    if b == [] {
      assert a + b == a;
    } else {
      var n := |b| - 1;
      NotifiedConcat(uuid, book, a, b[..n], now);
      assert (a + b)[..|a + b| - 1] == a + b[..n];
    }
  }

  lemma NotifiedOneMore(uuid: Printer, book: Book, triggers: seq<Trigger>, t: Trigger, now: int)
    ensures NotifiedAll(uuid, book, triggers + [t], now) == Notified(uuid, NotifiedAll(uuid, book, triggers, now), t, now)
  {
    assert (triggers + [t])[..|triggers|] == triggers;
  }

  method CreateNotificationIfNeeded(session: Session, uuid: Printer, t: Trigger, now: int) returns (created: bool)
    modifies session`nextId, session`notifications
    ensures var book := Book(old(session.nextId), old(session.notifications));
            && Book(session.nextId, session.notifications) == Notified(uuid, book, t, now)
            && (created <==> Find(book.notes, HasKey(KeyOfTrigger(uuid, t))).None?)
  {
    if Find(session.notifications, HasKey(KeyOfTrigger(uuid, t))).Some? {
      return false;
    }
    var id := session.NewId();
    session.notifications := session.notifications + [NoteOf(uuid, id, t, now)];
    return true;
  }

  method NotifyOffer(session: Session, uuid: Printer, w: Watchlist, o: Offer, now: int)
    returns (created: nat, skipped: nat)
    modifies session`nextId, session`notifications
    ensures var triggers := OfFlagged(w, o, session.analytics);
            && Book(session.nextId, session.notifications) ==
                 NotifiedAll(uuid, Book(old(session.nextId), old(session.notifications)), triggers, now)
            && created + skipped == |triggers|
    ensures created == |session.notifications| - |old(session.notifications)|
  {
    ghost var book := Book(session.nextId, session.notifications);
    var kinds := Rules(w, o, OfferFlags(session.analytics, o));
    created, skipped := 0, 0;
    for i := 0 to |kinds|
      invariant Book(session.nextId, session.notifications) == NotifiedAll(uuid, book, OfOffer(w, o, kinds[..i]), now)
      invariant created + skipped == i
      invariant created == |session.notifications| - |book.notes|
    {
      OneMoreKind(w, o, kinds, i);
      NotifiedOneMore(uuid, book, OfOffer(w, o, kinds[..i]), Trigger(w, o, kinds[i]), now);
      var wasCreated := CreateNotificationIfNeeded(session, uuid, Trigger(w, o, kinds[i]), now);
      if wasCreated {
        created := created + 1;
      } else {
        skipped := skipped + 1;
      }
    }
    assert kinds[..|kinds|] == kinds;
  }

  method NotifyWatchlist(session: Session, uuid: Printer, w: Watchlist, now: int)
    returns (created: nat, skipped: nat)
    modifies session`nextId, session`notifications
    ensures var triggers := OfWatchlist(w, old(session.State()));
            && Book(session.nextId, session.notifications) ==
                 NotifiedAll(uuid, Book(old(session.nextId), old(session.notifications)), triggers, now)
            && created + skipped == |triggers|
    ensures created == |session.notifications| - |old(session.notifications)|
  {
    ghost var book, rows := Book(session.nextId, session.notifications), session.analytics;
    var offers := Filter(session.offers, Matching(session.products, w));
    created, skipped := 0, 0;
    for i := 0 to |offers|
      invariant Book(session.nextId, session.notifications) == NotifiedAll(uuid, book, OfOffers(w, offers[..i], rows), now)
      invariant created + skipped == |OfOffers(w, offers[..i], rows)|
      invariant created == |session.notifications| - |book.notes|
    {
      OneMoreOffer(w, offers, rows, i);
      NotifiedConcat(uuid, book, OfOffers(w, offers[..i], rows), OfFlagged(w, offers[i], rows), now);
      var c, s := NotifyOffer(session, uuid, w, offers[i], now);
      created, skipped := created + c, skipped + s;
    }
    assert offers[..|offers|] == offers;
  }

  lemma TriggersIgnoreCounter(w: Watchlist, db: Db, other: Db)
    requires db.(nextId := other.nextId) == other
    ensures OfWatchlist(w, db) == OfWatchlist(w, other)
  {}

  method GenerateNotifications(session: Session, uuid: Printer, now: int) returns (created: nat, skipped: nat)
    modifies session`nextId, session`notifications
    ensures var triggers := Triggers(session.watchlists, old(session.State()));
            && Book(session.nextId, session.notifications) ==
                 NotifiedAll(uuid, Book(old(session.nextId), old(session.notifications)), triggers, now)
            && created + skipped == |triggers|
    ensures created == |session.notifications| - |old(session.notifications)|
  {
    ghost var book := Book(session.nextId, session.notifications);
    ghost var db := session.State();
    var watchlists := Filter(session.watchlists, IsActive());
    created, skipped := 0, 0;
    for i := 0 to |watchlists|
      invariant Book(session.nextId, session.notifications) == NotifiedAll(uuid, book, OfWatchlists(watchlists[..i], db), now)
      invariant created + skipped == |OfWatchlists(watchlists[..i], db)|
      invariant created == |session.notifications| - |book.notes|
      invariant session.State().(nextId := db.nextId) == db
    {
      TriggersIgnoreCounter(watchlists[i], session.State(), db);
      OneMoreWatchlist(watchlists, db, i);
      NotifiedConcat(uuid, book, OfWatchlists(watchlists[..i], db), OfWatchlist(watchlists[i], db), now);
      var c, s := NotifyWatchlist(session, uuid, watchlists[i], now);
      created, skipped := created + c, skipped + s;
    }
    assert watchlists[..|watchlists|] == watchlists;
  }

  // ---- complete, deduplicated, idempotent ----

  function KeyOfNote(): Notification -> string { (n: Notification) => n.dedupeKey }

  // Keys are unique, and each row's key is the text of its own triple.
  ghost predicate BookOk(uuid: Printer, book: Book) {
    && Distinct(book.notes, KeyOfNote())
    && forall n | n in book.notes ::
         && n.id < book.nextId && n.watchlistId.Some? && n.offerId.Some?
         && n.dedupeKey == DedupeKey(uuid, n.watchlistId.value, n.offerId.value, n.kind)
  }

  predicate IsFor(n: Notification, t: Trigger) {
    n.watchlistId == Some(t.watchlist.id) && n.offerId == Some(t.offer.id) && n.kind == t.kind
  }

  // Exactly one row is for the trigger.
  ghost predicate OneRowFor(notes: seq<Notification>, t: Trigger) {
    && (exists n :: n in notes && IsFor(n, t))
    && (forall i, j | 0 <= i < |notes| && 0 <= j < |notes| && IsFor(notes[i], t) && IsFor(notes[j], t) :: i == j)
  }

  lemma NotifiedOk(uuid: Printer, book: Book, t: Trigger, now: int)
    requires BookOk(uuid, book)
    ensures BookOk(uuid, Notified(uuid, book, t, now))
  {
    var key := KeyOfTrigger(uuid, t);
    if Find(book.notes, HasKey(key)).None? {
      var n := NoteOf(uuid, book.nextId, t, now);
      forall m | m in book.notes ensures KeyOfNote()(m) != KeyOfNote()(n) {
        assert !HasKey(key)(m);
      }
      DistinctAppend(book.notes, KeyOfNote(), n);
    }
  }

  ghost predicate AllNotified(uuid: Printer, notes: seq<Notification>, triggers: seq<Trigger>) {
    forall t | t in triggers :: Find(notes, HasKey(KeyOfTrigger(uuid, t))).Some?
  }

  lemma AllNotifiedGrows(uuid: Printer, notes: seq<Notification>, more: seq<Notification>,
                         triggers: seq<Trigger>, last: Trigger)
    requires notes <= more && AllNotified(uuid, notes, triggers)
    requires Find(more, HasKey(KeyOfTrigger(uuid, last))).Some?
    ensures AllNotified(uuid, more, triggers + [last])
  {
    assert more == notes + more[|notes|..];
    forall t | t in triggers ensures Find(more, HasKey(KeyOfTrigger(uuid, t))).Some? {
      FindConcat(notes, more[|notes|..], HasKey(KeyOfTrigger(uuid, t)));
    }
  }

  lemma {:induction false} NotifiedAllOk(uuid: Printer, book: Book, triggers: seq<Trigger>, now: int)
    requires BookOk(uuid, book)
    ensures BookOk(uuid, NotifiedAll(uuid, book, triggers, now))
  {
    if triggers != [] {
      var n := |triggers| - 1;
      NotifiedAllOk(uuid, book, triggers[..n], now);
      NotifiedOk(uuid, NotifiedAll(uuid, book, triggers[..n], now), triggers[n], now);
    }
  }

  lemma NotifiedAdds(uuid: Printer, book: Book, t: Trigger, now: int)
    ensures book.notes <= Notified(uuid, book, t, now).notes
    ensures Find(Notified(uuid, book, t, now).notes, HasKey(KeyOfTrigger(uuid, t))).Some?
  {
    if Find(book.notes, HasKey(KeyOfTrigger(uuid, t))).None? {
      FindConcat(book.notes, [NoteOf(uuid, book.nextId, t, now)], HasKey(KeyOfTrigger(uuid, t)));
    }
  }

  lemma {:induction false} NotifiedAllAdds(uuid: Printer, book: Book, triggers: seq<Trigger>, now: int)
    ensures book.notes <= NotifiedAll(uuid, book, triggers, now).notes
    ensures AllNotified(uuid, NotifiedAll(uuid, book, triggers, now).notes, triggers)
  {
    if triggers != [] {
      var n := |triggers| - 1;
      NotifiedAllAdds(uuid, book, triggers[..n], now);
      var before := NotifiedAll(uuid, book, triggers[..n], now);
      NotifiedAdds(uuid, before, triggers[n], now);
      AllNotifiedGrows(uuid, before.notes, Notified(uuid, before, triggers[n], now).notes, triggers[..n], triggers[n]);
      assert triggers == triggers[..n] + [triggers[n]];
    }
  }

  // The watchlists and offers that rows of the book are for.
  function IdsInBook(book: Book): set<Id> {
    (set n | n in book.notes && n.watchlistId.Some? :: n.watchlistId.value) +
    (set n | n in book.notes && n.offerId.Some? :: n.offerId.value)
  }

  // The ids a run over the watchlists prints or has printed.
  function IdsInUse(book: Book, watchlists: seq<Watchlist>, offers: seq<Offer>): set<Id> {
    IdsInBook(book) + (set w | w in watchlists :: w.id) + (set o | o in offers :: o.id)
  }

  lemma RowOfKeyIsFor(uuid: Printer, ids: set<Id>, book: Book, t: Trigger, row: Notification)
    requires BookOk(uuid, book) && PrintsUuids(uuid, ids)
    requires IdsInBook(book) <= ids && t.watchlist.id in ids && t.offer.id in ids
    requires row in book.notes && row.dedupeKey == KeyOfTrigger(uuid, t)
    ensures IsFor(row, t)
  {
    var w, o := row.watchlistId.value, row.offerId.value;
    assert w in IdsInBook(book) && o in IdsInBook(book);
    DedupeKeyInjective(uuid, ids, w, o, row.kind, t.watchlist.id, t.offer.id, t.kind);
  }

  lemma KeyedRowIsTheOne(uuid: Printer, ids: set<Id>, book: Book, t: Trigger)
    requires BookOk(uuid, book) && PrintsUuids(uuid, ids)
    requires IdsInBook(book) <= ids && t.watchlist.id in ids && t.offer.id in ids
    requires Find(book.notes, HasKey(KeyOfTrigger(uuid, t))).Some?
    ensures OneRowFor(book.notes, t)
  {
    RowOfKeyIsFor(uuid, ids, book, t, Find(book.notes, HasKey(KeyOfTrigger(uuid, t))).value);
    AtMostOneRow(uuid, book, t);
  }

  lemma {:induction false} NotifiedAllIds(uuid: Printer, book: Book, triggers: seq<Trigger>, now: int, ids: set<Id>)
    requires IdsInBook(book) <= ids && forall t | t in triggers :: t.watchlist.id in ids && t.offer.id in ids
    ensures IdsInBook(NotifiedAll(uuid, book, triggers, now)) <= ids
  {
    if triggers != [] {
      var n := |triggers| - 1;
      NotifiedAllIds(uuid, book, triggers[..n], now, ids);
      assert triggers[n] in triggers;
    }
  }

  // No triple has two rows.
  lemma AtMostOneRow(uuid: Printer, book: Book, t: Trigger)
    requires BookOk(uuid, book)
    ensures forall i, j | 0 <= i < |book.notes| && 0 <= j < |book.notes|
                          && IsFor(book.notes[i], t) && IsFor(book.notes[j], t) :: i == j
  {
    forall i, j | 0 <= i < j < |book.notes| && IsFor(book.notes[i], t)
      ensures !IsFor(book.notes[j], t)
    {
      assert KeyOfNote()(book.notes[i]) != KeyOfNote()(book.notes[j]);
      assert book.notes[i] in book.notes && book.notes[j] in book.notes;
    }
  }

  // After a run every firing trigger has exactly one row, nothing else was lost, and running
  // again at once adds nothing.
  lemma GenerationIsCompleteAndIdempotent(uuid: Printer, book: Book, watchlists: seq<Watchlist>, db: Db,
                                          now: int, later: int)
    requires BookOk(uuid, book) && PrintsUuids(uuid, IdsInUse(book, watchlists, db.offers))
    ensures var after := NotifiedAll(uuid, book, Triggers(watchlists, db), now);
            && BookOk(uuid, after) && book.notes <= after.notes
            && (forall t | Fires(t, watchlists, db) :: OneRowFor(after.notes, t))
            && NotifiedAll(uuid, after, Triggers(watchlists, db), later) == after
  {
    var triggers := Triggers(watchlists, db);
    var after := NotifiedAll(uuid, book, triggers, now);
    NotifiedAllOk(uuid, book, triggers, now);
    NotifiedAllAdds(uuid, book, triggers, now);
    var ids := IdsInUse(book, watchlists, db.offers);
    forall t | t in triggers ensures t.watchlist.id in ids && t.offer.id in ids {
      TriggersAreFiring(t, watchlists, db);
    }
    NotifiedAllIds(uuid, book, triggers, now, ids);
    forall t | Fires(t, watchlists, db) ensures OneRowFor(after.notes, t) {
      TriggersAreFiring(t, watchlists, db);
      KeyedRowIsTheOne(uuid, ids, after, t);
    }
    NothingNew(uuid, after, triggers, later);
  }

  lemma {:induction false} NothingNew(uuid: Printer, book: Book, triggers: seq<Trigger>, now: int)
    requires AllNotified(uuid, book.notes, triggers)
    ensures NotifiedAll(uuid, book, triggers, now) == book
  {
    if triggers != [] {
      var n := |triggers| - 1;
      assert triggers == triggers[..n] + [triggers[n]];
      NothingNew(uuid, book, triggers[..n], now);
    }
  }
}
