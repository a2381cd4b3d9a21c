/** The rows of the database, one datatype per table, and the session that reassigns the tables.
    Row ids are numbers handed out in increasing order; the order of the rows of a table stands
    for the order (created_at, id). Times are seconds, prices are exact euro amounts. */
module Tables {
  import opened Prelude

  type Id = nat

  const DAY := 86_400
  const MINUTE := 60

  // ---- fx ----

  datatype FxRate = FxRate(currency: string, rateToEur: real, source: string, validAt: int)

  // ---- catalogue ----

  datatype Brand = Brand(id: Id, name: string, normalizedName: string)

  datatype Category = Category(id: Id, slug: string, name: string)

  datatype Product = Product(id: Id, brandId: Option<Id>, categoryId: Id,
                             model: Option<string>, name: string, sku: Option<string>)

  datatype Variant = Variant(id: Id, productId: Id, sizeValue: Option<string>,
                             sizeSystem: Option<string>, color: Option<string>, sku: Option<string>)

  // ---- stores ----

  datatype SourceConfig = SourceConfig(id: Id, storeId: Id, active: bool, interval: Option<nat>,
                                       lastSyncAt: Option<int>, nextSyncAt: Option<int>)

  datatype Mapping = Mapping(storeId: Id, configId: Id, externalId: string, productId: Id)

  datatype RunStatus = Running | Succeeded | PartiallyFailed | Failed

  datatype SyncRun = SyncRun(id: Id, storeId: Id, configId: Option<Id>, status: RunStatus,
                             productsSeen: nat, offersSeen: nat, failedOffers: nat, startedAt: int)

  datatype SyncError = NoFxRate | NoProductData | NoConfigId | Rejected

  datatype RunItem = RunItem(runId: Id, externalId: string, productId: Option<Id>,
                             offerId: Option<Id>, error: Option<SyncError>)

  // ---- offers ----

  // The columns an offer shares with its price snapshots.
  datatype Quote = Quote(sourcePrice: real, sourceOldPrice: Option<real>, sourceCurrency: string,
                         eurPrice: real, eurOldPrice: Option<real>, fxRateToEur: Option<real>,
                         discountPercent: Option<real>, availability: string)

  datatype Size = Size(value: Option<string>, system: Option<string>, color: Option<string>,
                       inStock: bool, stockCount: Option<int>)

  datatype Offer = Offer(id: Id, productId: Id, storeId: Id, externalId: Option<string>,
                         productUrl: string, quote: Quote, sizes: seq<Size>)

  datatype Snapshot = Snapshot(offerId: Id, quote: Quote, capturedAt: int)

  datatype Analytics = Analytics(productId: Id, storeId: Option<Id>,
                                 min30d: Option<real>, min90d: Option<real>,
                                 min180d: Option<real>, min365d: Option<real>,
                                 minAllTime: Option<real>, avg365d: Option<real>,
                                 lowest10: Option<real>, calculatedAt: int)

  // ---- users ----

  datatype User = User(id: Id, telegramId: Option<int>)

  function UserId(): User -> Id { (u: User) => u.id }

  function HasUserId(id: Id): User -> bool { (u: User) => u.id == id }

  datatype UserSession = UserSession(id: Id, userId: Id, tokenHash: string, expiresAt: int)

  datatype ShoppingRequest = ShoppingRequest(id: Id, userId: Id)

  datatype RequestConstraints = RequestConstraints(id: Id, requestId: Id)

  datatype Recommendation = Recommendation(id: Id, requestId: Id, productId: Id)

  datatype Watchlist = Watchlist(id: Id, userId: Id, productId: Option<Id>, categoryId: Option<Id>,
                                 brandId: Option<Id>, sourceRequestId: Option<Id>,
                                 targetPrice: Option<real>, discountThreshold: Option<real>,
                                 notifyOnHistoricalMin: bool, active: bool, archived: bool)

  datatype NoteStatus = Created | Sent | Undelivered

  datatype Notification = Notification(id: Id, userId: Id, watchlistId: Option<Id>,
                                       requestId: Option<Id>, offerId: Option<Id>, kind: string,
                                       status: NoteStatus, dedupeKey: string, createdAt: int)

  // The catalogue and the offers as a value: the tables a source sync reads and writes.
  datatype Db = Db(nextId: Id, rates: seq<FxRate>,
                   brands: seq<Brand>, categories: seq<Category>, products: seq<Product>,
                   mappings: seq<Mapping>,
                   offers: seq<Offer>, snapshots: seq<Snapshot>, analytics: seq<Analytics>)

  const EMPTY := Db(0, [], [], [], [], [], [], [], [])

  // The database session: one field per table.
  class Session {
    var nextId: Id
    var rates: seq<FxRate>
    var brands: seq<Brand>
    var categories: seq<Category>
    var products: seq<Product>
    var variants: seq<Variant>
    var configs: seq<SourceConfig>
    var mappings: seq<Mapping>
    var runs: seq<SyncRun>
    var items: seq<RunItem>
    var offers: seq<Offer>
    var snapshots: seq<Snapshot>
    var analytics: seq<Analytics>
    var users: seq<User>
    var sessions: seq<UserSession>
    var requests: seq<ShoppingRequest>
    var constraints: seq<RequestConstraints>
    var recommendations: seq<Recommendation>
    var watchlists: seq<Watchlist>
    var notifications: seq<Notification>

    function State(): Db
      reads this
    {
      Db(nextId, rates, brands, categories, products, mappings, offers, snapshots, analytics)
    }

    constructor ()
      ensures State() == EMPTY
      ensures variants == [] && configs == [] && runs == [] && items == []
      ensures users == [] && sessions == [] && requests == [] && constraints == []
      ensures recommendations == [] && watchlists == [] && notifications == []
    {
      nextId := 0;
      rates, brands, categories, products, variants := [], [], [], [], [];
      configs, mappings, runs, items := [], [], [], [];
      offers, snapshots, analytics := [], [], [];
      users, sessions, requests, constraints := [], [], [], [];
      recommendations, watchlists, notifications := [], [], [];
    }

    method NewId() returns (id: Id)
      modifies this`nextId
      ensures id == old(nextId) && nextId == id + 1
    {
      id := nextId;
      nextId := nextId + 1;
    }
  }
}
