# Kupikupi backend: a verified model

Kupikupi collects offers from store feeds, keeps a price log with cached analytics, notifies users
whose watchlists match, and lists deals. This project models the service functions of the backend
as Dafny methods over a `Session` (one field per table), each tied to a function of the old tables,
and proves what those functions promise over single calls, over runs and over whole histories.

## How it is laid out

| file | what it holds |
|---|---|
| `Prelude.dfy` | SQL vocabulary on sequences of rows: filter, first row, stable sort, write under a key |
| `Tables.dfy` | the rows of every table and the `Session` class that reassigns them |
| `Fx.dfy` | rate lookup, conversion to EUR, the two roundings and their combined error |
| `Statistics.dfy`, `Offers.dfy` | price windows, the lowest-10% threshold; offer writes, snapshots, analytics rows, flags |
| `Cache.dfy`, `CacheMeaning.dfy`, `CacheMerge.dfy` | the analytics cache agrees with the price log, what that means for every reader, and when a merge keeps it |
| `Sync.dfy`, `SyncRuns.dfy`, `SyncMeaning.dfy`, `Duplicates.dfy` | a source run record by record; failing records; what a record comes to, column by column; product identity and the duplicate report |
| `Merge.dfy`, `History.dfy` | merging products; any interleaving of syncs, offer writes, rate and catalogue entries, and merges |
| `Scheduler.dfy` | rounds over due source configs and the wait of a config |
| `Notifications.dfy`, `NotificationMeaning.dfy`, `Dispatch.dfy`, `Mailbox.dfy` | generating notifications, exactly those that are due; delivering and cleaning up |
| `Deals.dfy`, `DealMeaning.dfy` | the SQL prefilter, scoring, sorting and paging of deals; exactly which deals a query lists, and for which reasons |
| `Tokens.dfy`, `Retention.dfy`, `Privacy.dfy` | refresh tokens, the cleanup job, deletion of a user's data |
| `Paging.dfy` | the page loop of the Srovname adapter |
| `Text.dfy`, `Allowlist.dfy`, `EnvFile.dfy`, `EnvTemplate.dfy` | Python's split, strip and splitlines; the Telegram allowlist; environment files |

Ids are numbers handed out in increasing order, times are seconds, prices are exact amounts
(`real`). A table is a sequence of rows whose order stands for `(created_at, id)`. What the model
cannot see is a parameter: the normalisers of names and product identities (`Env`), rounding to the
nearest integer (`Fx.Rounding`, with Python's half-even rule as an instance), the printed form of
ids, the token hash, the answers of the message client and of the page server, and the table of
decimal digits.

## What was found

Several properties one would expect hold only under a condition. Each is stated here as an exact
condition, with the code kept as it is.

- A merge keeps the analytics cache in agreement with the price log exactly if one of the two
  products has no analytics row (`History.MergeKeepsCacheIff`); otherwise the surviving product is
  left with two all-stores rows. A history keeps the agreement at every moment exactly if each of
  its merges meets that condition (`History.CacheAgreesIff`). The rows keep one per key exactly if
  no store, nor the all-stores row, is present for both products (`Merge.AnalyticsKeysSurviveIff`).
- A merge is refused by the database exactly if a fully specified variant of one product equals one
  of the other (`Merge.MergeSucceedsIff`).
- The deals prefilter loses nothing the matcher accepts exactly if every watchlist has a product, a
  category or a brand (`Deals.PrefilterLosesNothingIff`): a watchlist with none of them matches
  every offer but passes none.
- At the instant a session expires, the cleanup already removes it while a rotation still accepts
  its token (`Tokens.CleanupRemovesIffDead`).
- The retention cleanup forgets notifications: the same trigger is notified again exactly if its
  row was older than the cutoff (`Mailbox.CleanupForgetsIff`), and a row still waiting is never
  delivered exactly if it was older (`Mailbox.LostUndeliveredIff`).
- Deleting a user's data is refused exactly if another user's notification links to a watchlist or
  a request of this user (`Privacy.DeletionSucceedsIff`), and it drops the source request of other
  users' watchlists exactly if one came from this user's requests (`Privacy.OthersUntouchedIff`).
  Both happen in a sound database: a watchlist may be made from anyone's request, and its
  notifications carry the request along (`Privacy.SharedRequestBlocksDeletion`).
- A page server with a limit of its own below the page size asked for is read for one page only,
  whatever total it reports (`Paging.LimitedServerIsReadIff`).
- A quote of two million or more has a rate that rounds to zero, which is not accepted
  (`Fx.StorableIff`), so one such quote, like one that is not positive, ends the whole import
  (`Fx.ImportSucceedsIff`).
- Of the comma lists the parser of the allowlist accepts, the printer accepts exactly those without
  a sign and without an underscore (`Allowlist.PrinterAcceptsIff`); lists with either exist
  (`Allowlist.MarkedIdsAreParsedOnly`).
- An environment file comes back exactly if no value has a line break or a quote, of either kind, at
  an end (`EnvFile.RoundTripIff`).

## Model

| member | source | states |
|---|---|---|
| Fx.HalfEvenRoundsToNearest | backend/app/domains/fx/service.py:110 | Python's half-even rounding is a rounding to the nearest integer, so all that is proved of `Rounding` holds of it |
| Fx.UpperIgnoresCase | backend/app/domains/fx/service.py:39-110 | currencies are the same exactly if they agree letter by letter whatever the case, and exactly those in capitals stay as they are |
| Fx.LatestRateIsLatest | backend/app/domains/fx/service.py:73-90 | the rate looked up is a newest one of its currency among those valid at the asked time; there is none exactly if no such row exists |
| Fx.ConversionErrorBound | backend/app/domains/fx/service.py:93-110 | with the rate stored for quote q, amount a converts to within 0.005 + a * 0.0000005 of a / q, both roundings together |
| Fx.PositiveRateIff | backend/app/domains/fx/service.py:185-189 | the rate computed from a positive quote is positive exactly for quotes below 2,000,000, and zero from there on |
| Fx.StorableIff | backend/app/domains/fx/schemas.py:7-11 | a quote gives a rate that can be stored exactly for a three-letter currency and 0 < q < 2,000,000; otherwise the error says which guard refused it |
| Fx.ConversionMonotone | backend/app/domains/stores/sync.py:149-168 | conversion keeps the order of amounts and uses one rate for both, so an old price not below the price stays so |
| Fx.UpsertFxRate | backend/app/domains/fx/service.py:39-57 | afterwards the slot (currency, time) holds exactly the new rate, every other row is as before, and slots stay unique |
| Fx.UpdateFxRates | backend/app/domains/fx/service.py:121-170 | the loop skips the euro and missing quotes, stores the others in turn, and leaves the table as it was when a quote is refused |
| Fx.ImportKeepsValid | backend/app/domains/fx/service.py:144-170 | whatever is imported, slots stay unique and every rate positive |
| Fx.ImportSucceedsIff | backend/app/domains/fx/service.py:144-170 | an import goes through exactly if every wanted quote can be stored; then the wanted currencies are counted as updated and the others as skipped, and each wanted quote's rate stands in the table |
| Fx.NewestRateIsUsed | backend/app/domains/fx/service.py:73-90 | a rate stored for a later time than all others of its currency is the one looked up |
| Statistics.MinOfIsMin | backend/app/domains/offers/service.py:206-213 | the minimum is a member and a lower bound, and is absent exactly for no prices |
| Statistics.WindowsNest | backend/app/domains/offers/service.py:155-164 | a longer window has a minimum whenever a shorter one has, no higher; likewise the whole log |
| Statistics.MinAtMostMean | backend/app/domains/offers/service.py:165 | the yearly minimum is at most the yearly mean |
| Statistics.LowestTenthIsOrderStatistic | backend/app/domains/offers/service.py:216-221 | the threshold is one of the n prices, at least ceil(n/10) prices are at or below it and fewer than ceil(n/10) are below it |
| Statistics.LowestTenthIgnoresOrder | backend/app/domains/offers/service.py:216-221 | the threshold depends on the prices as a multiset only |
| Statistics.MinimumIsInLowestTenth | backend/app/domains/offers/service.py:193-203 | a price at the minimum of the log is at most the threshold of every non-empty part of the log |
| Offers.ComputePriceAnalytics | backend/app/domains/offers/service.py:124-170 | the key's row is replaced, or added, by the summary of the snapshots joined to the key; nothing else changes |
| Cache.HistoryGrows | backend/app/domains/offers/service.py:42-56 | a snapshot is appended to its own offer's history and changes no other offer's |
| Cache.WrittenIsCurrent | backend/app/domains/offers/service.py:42-56 | after its snapshot is taken an offer's quote is the last one logged for it |
| Offers.RecomputeOfferAnalytics | backend/app/domains/offers/service.py:119-121 | the product row and then the store row are recomputed |
| Offers.CreateOffer | backend/app/domains/offers/service.py:20-30 | the offer, its snapshot and both rows are written, or nothing is when the database refuses the offer |
| Offers.UpdateOffer | backend/app/domains/offers/service.py:33-39 | the patched offer replaces the old one, is logged, and both rows are recomputed |
| Offers.CreatedOffer | backend/app/domains/offers/service.py:20-56 | an offer is created exactly if its product exists and its store does not list its external id; it gets a new id and the columns of the request, and one snapshot of them |
| Offers.PatchedOffer | backend/app/domains/offers/service.py:33-56 | the set columns are written and the others kept; key, sizes and place stay, no other offer changes, and one snapshot is added |
| Cache.EmptyIsCoherent | backend/app/domains/offers/service.py:124-170 | cache and log agree in the empty database |
| Cache.FirstOfferIsCoherent | backend/app/domains/offers/service.py:20-30 | the first offer of any product gives a database in which cache and log agree and an offer stands |
| Cache.RecomputeKeepsCoherent | backend/app/domains/offers/service.py:124-170 | recomputing a product's row at any time keeps the agreement |
| Cache.WriteKeepsCoherent | backend/app/domains/offers/service.py:42-56 | a snapshot and the recomputation of two rows restore the agreement after any offer write; every other row still agrees |
| Cache.CreateKeepsCoherent | backend/app/domains/offers/service.py:20-30 | creating an offer keeps the agreement |
| Cache.UpdateKeepsCoherent | backend/app/domains/offers/service.py:33-39 | updating an offer keeps the agreement |
| CacheMeaning.ExactlyOneRow | backend/app/domains/offers/service.py:173-184 | each (product, store) and (product, none) key with an offer has exactly one row, and the lookup finds it |
| CacheMeaning.AllTimeMinimum | backend/app/domains/offers/service.py:132-164 | a row's all-time minimum is the lowest price among the snapshots joined to its key |
| CacheMeaning.ProductMinimum | backend/app/domains/offers/service.py:119-121 | the product row's minimum is the minimum of its stores' minima and is reached by one of them |
| CacheMeaning.WindowsOfRow | backend/app/domains/offers/service.py:160-166 | in every cached row all-time <= 365d <= 180d <= 90d <= 30d where present, and 365d <= threshold and mean |
| CacheMeaning.NumbersOfRow | backend/app/domains/offers/service.py:124-170 | in every coherent state each number of each row is that of the snapshots joined to its key: five minima over windows ending at the row's time; mean * n is their sum over the year; the threshold is one of the n prices of the year, with n <= 10 * (number at or below it) and 10 * (number below it) < n |
| CacheMeaning.FlagsMean | backend/app/domains/offers/service.py:187-203 | an offer is flagged a historical minimum exactly if its price is the lowest ever logged for its product in its store, and then also lowest-10% |
| CacheMeaning.LowestTenthFlagMeans | backend/app/domains/offers/service.py:200-221 | an offer is flagged lowest-10% exactly if less than a tenth of the prices of its product in its store, over the year that ended when the row was computed, are below its price |
| Sync.GetOrCreateBrand | backend/app/domains/stores/sync.py:288-298 | no name gives no brand; a known normalised name its first brand; otherwise one brand is added |
| Sync.GetOrCreateCategory | backend/app/domains/stores/sync.py:301-313 | a known slug gives its category, otherwise one is added |
| Sync.FindProductByNormalizedIdentity | backend/app/domains/stores/sync.py:250-285 | the loop returns the first product of brand and category whose identity or name matches, and none for identities under four characters |
| Sync.ResolveSourceProductId | backend/app/domains/stores/sync.py:181-247 | own id, else mapping, else SKU, else identity, else a new product, with a mapping added; an error writes nothing |
| SyncMeaning.BrandIsKept | backend/app/domains/stores/sync.py:288-298 | the brand is the first of its normalised name; a missing one is added with name and normalised name; asking again gives it and writes nothing |
| SyncMeaning.CategoryIsKept | backend/app/domains/stores/sync.py:301-313 | the category is the first of its slug; a missing one is added with slug and name; asking again, under any name, gives it and writes nothing |
| SyncMeaning.ProductIsTheOne | backend/app/domains/stores/sync.py:181-285 | the product is the first of a non-empty SKU; else, from four characters of identity on, the first of brand and category with the same identity or name; else a new one with the columns of the record |
| SyncMeaning.KnownRecordsWriteNothing | backend/app/domains/stores/sync.py:181-206 | an own product id is taken as it is and a mapping leads to its product; neither writes anything |
| SyncMeaning.SameKindSameProduct | backend/app/domains/stores/sync.py:181-313 | two records of one brand, category and identity, without own id, SKU or mapping, resolve to one product, whatever was added to the catalogue in between; the second writes only its mapping |
| SyncMeaning.SameKindAcrossRuns | backend/app/domains/stores/sync.py:17-313 | so it is with any run of any source in between |
| Sync.RejectedAfterNoWrite | backend/app/domains/stores/sync.py:181-247 | a resolution either wrote nothing or ends at an existing product |
| Sync.UpsertOfferFromSourceRecord | backend/app/domains/stores/sync.py:86-146 | prices, product and offer are written in turn, or the record fails and the database is as before |
| SyncMeaning.RecordIsPriced | backend/app/domains/stores/sync.py:149-168 | euro prices of the record are taken as they are, euro source prices stay with rate 1, others are converted with one newest rate |
| SyncMeaning.RecordBecomesOffer | backend/app/domains/stores/sync.py:86-168 | a record that is not refused becomes the offer of its listing with the columns of the record, in place with id and product kept or new with the resolved product, and one snapshot is added |
| Sync.StoreOffer | backend/app/domains/stores/sync.py:100-146 | the store's offer of this external id is refreshed, or created |
| Sync.RefreshOffer | backend/app/domains/stores/sync.py:127-146 | url, quote and sizes are replaced by the record's, product and key stay, and the write is logged |
| Sync.ProcessRecord | backend/app/domains/stores/sync.py:37-67 | one record gives one outcome and appends the item that names it |
| Sync.ProcessRecords | backend/app/domains/stores/sync.py:35-67 | the loop folds the record step over the feed, collects the products of stored offers, and counts the lost records |
| Sync.FinishRun | backend/app/domains/stores/sync.py:68-76 | the run row gets the counts of the outcomes and the status they decide |
| Sync.SyncFeed | backend/app/domains/stores/sync.py:34-76 | a delivered feed is folded over the catalogue and summed up in the run row |
| Sync.RunSourceSync | backend/app/domains/stores/sync.py:17-83 | a source that fails to deliver leaves one failed run and nothing else; otherwise tables, items and the run row are those of the fold |
| SyncRuns.PricesFailIff | backend/app/domains/stores/sync.py:149-168 | pricing fails exactly without a EUR price, in a foreign currency without any rate |
| SyncRuns.FailsIff | backend/app/domains/stores/sync.py:86-194 | a record fails exactly for a missing rate, missing product data, a missing config id, or an own product id that does not exist for an offer not yet listed |
| SyncRuns.FailsAs | backend/app/domains/stores/sync.py:86-194 | which error: no rate first, then no product data, then no config, else an offer refused for its product |
| SyncRuns.UpsertedOffer | backend/app/domains/stores/sync.py:86-146 | a record that does not fail is afterwards an offer with its quote at the normalised prices |
| SyncRuns.FailuresLeaveNoTrace | backend/app/domains/stores/sync.py:37-67 | for any database and feed, a run ends in the state of the run on the records that are not lost, with the same stored offers in order |
| SyncRuns.RecordLostIff | backend/app/domains/stores/sync.py:37-67 | a record is lost exactly if one of the failing conditions holds when its turn comes; with existing own products the feed and the rates alone decide |
| SyncRuns.RunAccounts | backend/app/domains/stores/sync.py:68-76 | offers seen + failed = records, products seen is the number of different products of the stored offers, and each status holds exactly for none, all or some records lost |
| SyncRuns.ItemsFollowFeed | backend/app/domains/stores/sync.py:46-67 | one item per record in feed order, with the error of a lost record and the offer and product of a stored one |
| SyncRuns.ProductsSeenBound | backend/app/domains/stores/sync.py:35-68 | distinct products of stored offers are no more than the stored offers |
| Duplicates.ResolveMakesNoDuplicates | backend/app/domains/stores/sync.py:181-285 | resolving leaves every group (category, brand, identity) as it was, or gives an empty one its first member |
| Duplicates.GroupIs | backend/app/domains/stores/service.py:177-193 | a product is in the group of its category, brand and normalised model, or name without one, from four characters on |
| Duplicates.SyncMakesNoDuplicates | backend/app/domains/stores/sync.py:17-285 | a whole run leaves the duplicate groups as they were, so a catalogue without duplicates stays without |
| Duplicates.GroupRows | backend/app/domains/stores/service.py:177-193 | the dictionary holds, for each identity met, its products in order |
| Duplicates.CandidateGroups | backend/app/domains/stores/service.py:195-204 | the groups of more than one product, each once and complete |
| Duplicates.ListProductDuplicateCandidates | backend/app/domains/stores/service.py:167-206 | complete groups, each once, largest first; a group is left out only at the limit and then comes after all listed; empty exactly if there are no duplicates |
| Merge.MoveProductRefs | backend/app/domains/catalog/service.py:133-190 | the seven tables are rebound with the moved counts, unless the variants would clash |
| Merge.MergeProduct | backend/app/domains/catalog/service.py:117-176 | equal ids, a missing product and a variant clash are errors that change nothing; otherwise the merged tables and counts |
| Merge.MergeConserves | backend/app/domains/catalog/service.py:133-190 | row by row, seven tables keep everything but the product of rows that pointed to the source; the counts are those of the rows changed, exactly the source goes, no reference to it is left |
| Merge.MergeKeepsKeys | backend/app/domains/stores/models.py:43-52 | (store, external id) of offers and the key of mappings are unique after a merge exactly if before |
| Merge.MergeSucceedsIff | backend/app/domains/catalog/models.py:58-69 | a merge goes through exactly for two different existing products of which no variant of one agrees with a variant of the other in size, system, colour and SKU, all given |
| Merge.MergeFailsAs | backend/app/domains/catalog/service.py:117-132 | which error: equal ids, then a missing source, then a missing target, else the variants |
| Merge.AnalyticsKeysSurviveIff | backend/app/domains/catalog/service.py:137-142 | one analytics row per key survives exactly if the two products share no store row and no all-stores row |
| History.ResolutionFollowsMerges | backend/app/domains/stores/sync.py:196-206 | after any history a mapped listing is mapped to the live end of its product's merge chain |
| History.ResolvedAgain | backend/app/domains/stores/sync.py:181-247 | a record that first resolved to p resolves after any history to the end of p's merge chain and creates nothing |
| History.MergedAwayStaysAway | backend/app/domains/catalog/service.py:174-176 | a product id that is gone never comes back, whatever the sources deliver |
| History.MergeRemovesSource | backend/app/domains/catalog/service.py:117-176 | a merge removes the source and keeps the target |
| CacheMerge.MergedCoherentIff | backend/app/domains/catalog/service.py:133-176 | moving offers and rows from source to target keeps cache and log in agreement exactly if one of the two has no row |
| History.MergeKeepsCacheIff | backend/app/domains/catalog/service.py:137-142 | the same for a merge in a whole database |
| History.CacheAgreesIff | backend/app/domains/offers/service.py:20-56 | over any history of records, offer, rate and catalogue writes, recomputations and merges, cache and log agree at every moment exactly if each merge meets that condition |
| History.CacheAlwaysAgrees | backend/app/domains/offers/service.py:20-56 | so they agree at the end of such a history |
| History.FlagsAlwaysMean | backend/app/domains/offers/service.py:187-203 | in every state such a history reaches from the empty database, each offer's quote is its last snapshot, and both flags hold exactly if the price log says so |
| History.MinimaAlwaysMean | backend/app/domains/offers/service.py:119-184 | in every such state keys are unique and an offer's product row holds the lowest price ever logged for it, the minimum of its stores' minima |
| History.RunKeepsRatesOk | backend/app/domains/fx/service.py:27-57 | over any history there is one rate per currency and time, and all are positive |
| History.OldPricesStayOld | backend/app/domains/stores/sync.py:149-168 | in every reached state an old price not below the price stays so when both are converted |
| History.ConvertedPriceIsReached | backend/app/domains/fx/service.py:93-110 | a rate entered and a record in its currency give an offer at the converted price |
| History.OfferOfferMerge | backend/app/domains/catalog/service.py:117-176 | the short history that shows it: two products, one offer each in different stores, one merge |
| Scheduler.MarkingDefers | backend/app/domains/stores/service.py:126-141 | marking changes exactly one config, which is due again just when its interval has passed since the sync, and never without one |
| Scheduler.SyncConfig | backend/app/jobs/sync.py:62-69 | one config's run is done on catalogue, runs and items, and the config is rescheduled; no other table changes |
| Scheduler.SyncBatch | backend/app/jobs/sync.py:58-75 | configs, catalogue, runs and items are those of syncing the batch in order; the new runs are counted by status and none is left running |
| Scheduler.RunDueSourceConfigs | backend/app/jobs/sync.py:55-82 | a round does this for the due configs that waited longest, up to the limit |
| Scheduler.BatchLeaves | backend/app/jobs/sync.py:58-75 | a round leaves older runs in place and adds, in order, one run of each config of its batch, each marked at its time |
| Scheduler.SyncedIff | backend/app/domains/stores/service.py:106-123 | a due config is in the round exactly if fewer than the limit are ahead of it (no time first, then time, then id) |
| Scheduler.BatchIsDue | backend/app/domains/stores/service.py:106-123 | only active configs with an interval and a time that is absent or past are in a round |
| Scheduler.RoundMovesBatchBehind | backend/app/jobs/sync.py:55-82 | a round moves exactly its batch from ahead of a due config to behind it |
| Scheduler.MissedRound | backend/app/jobs/sync.py:55-82 | a round that does not reach a due config leaves exactly the limit fewer ahead of it |
| Scheduler.NoStarvation | backend/app/domains/stores/service.py:106-141 | a due config with k ahead of it is first synced in round k / limit, counted from zero, neither later nor earlier |
| Notifications.TriggersAreFiring | backend/app/domains/notifications/service.py:92-177 | the three loops enumerate exactly the triples of active watchlist, matching available offer and triggered rule |
| Notifications.KeyTextInjective | backend/app/domains/notifications/service.py:188 | the text of two UUIDs and a kind joined by colons determines all three |
| Notifications.DedupeKeyInjective | backend/app/domains/notifications/service.py:188 | the dedupe key determines the triple when the ids in use print as distinct UUIDs |
| Notifications.UuidsPrint | backend/app/domains/notifications/models.py:14 | ids can be so printed: all 2^128 of them at once, in the form of UUIDs |
| Notifications.CreateNotificationIfNeeded | backend/app/domains/notifications/service.py:180-207 | a row is added exactly if none has the key |
| Notifications.NotifyOffer | backend/app/domains/notifications/service.py:99-113 | one pass over an offer's rules; created is the number of rows added and created + skipped the rules triggered |
| Notifications.NotifyWatchlist | backend/app/domains/notifications/service.py:97-113 | the same for all matching offers of a watchlist |
| Notifications.GenerateNotifications | backend/app/domains/notifications/service.py:92-116 | the same for all active watchlists |
| Notifications.GenerationIsCompleteAndIdempotent | backend/app/domains/notifications/service.py:92-207 | after a run every firing triple has exactly one row, older rows are kept, and an immediate second run changes nothing |
| NotificationMeaning.GenerationNotifiesTheDue | backend/app/domains/notifications/service.py:92-207 | with cache and log in agreement a run leaves exactly one row for each active watchlist, available offer of a product it asks for, and kind called for: price at most the target, discount at least the threshold, lowest price ever logged, less than a tenth of the year cheaper; every row added is such a row for the user of the watchlist |
| NotificationMeaning.FiresIffDue | backend/app/domains/notifications/service.py:92-175 | the triggers are exactly those |
| NotificationMeaning.AddedRowsTell | backend/app/domains/notifications/service.py:180-207 | a row added carries user, watchlist, request, offer and kind of its trigger and waits for delivery |
| Notifications.AtMostOneRow | backend/app/domains/notifications/models.py:12 | no triple has two rows |
| Dispatch.DeliverNotification | backend/app/domains/notifications/service.py:69-86 | a message is sent exactly if its user has a Telegram id and the client takes it, and failed otherwise; the client is called exactly if there is an id |
| Dispatch.DeliverBatch | backend/app/domains/notifications/service.py:65-88 | the loop settles the batch row by row, calls the client for exactly its reachable rows, and counts as sent exactly the rows it accepts |
| Dispatch.DispatchCreatedNotifications | backend/app/domains/notifications/service.py:51-89 | the same for the oldest pending rows up to the limit; seen from outside, it does what `Dispatch.CallIsDone` says |
| Dispatch.CallIsDone | backend/app/domains/notifications/service.py:51-89 | of the rows that change each was waiting, and is sent if its user has a Telegram id and the client takes it and failed if not; sent and failed count the rows that changed so, together min(limit, waiting); the calls are those of the changed rows with an id, and no row older than a changed one is left waiting |
| Dispatch.BatchIsOldest | backend/app/domains/notifications/service.py:57-64 | the batch is min(limit, pending) pending rows, none younger than a pending row outside it |
| Dispatch.DispatchSettles | backend/app/domains/notifications/service.py:51-89 | a call settles exactly min(limit, pending) rows, changes no other, and leaves pending none older than one it settled |
| Dispatch.QueueDrains | backend/app/domains/notifications/service.py:51-89 | n pending rows are all settled after c calls exactly if n <= c * limit, whatever the client answers |
| Mailbox.DeliveredAtMostOnce | backend/app/domains/notifications/service.py:51-207 | over any history of generation, dispatch and cleanup the client is called at most once per notification |
| Mailbox.NotifiedAtMostOnce | backend/app/domains/notifications/service.py:180-207 | no triple ever has two rows, and without a cleanup the row it got stays its only row |
| Mailbox.CleanupForgetsIff | backend/app/domains/retention/service.py:38-41 | after a cleanup a notified triple is notified again exactly if its row was older than the cutoff |
| Mailbox.LostUndeliveredIff | backend/app/domains/retention/service.py:38-41 | after a cleanup a row that was waiting can still be delivered by some later history exactly if it was not older than the cutoff |
| Deals.PrefilterKeepsAccepted | backend/app/domains/deals/service.py:69-78 | the prefilter passes what the matcher accepts for a watchlist with a criterion |
| Deals.PrefilterLosesNothingIff | backend/app/domains/deals/service.py:69-131 | the prefilter passes all the matcher accepts exactly if every watchlist has a criterion |
| Deals.BuildDeal | backend/app/domains/deals/service.py:81-121 | the loop with its break scores the first accepting watchlist only, on top of discount and flags |
| Deals.AcceptedScores | backend/app/domains/deals/service.py:98-112 | an accepted offer scores above zero and names the match |
| Deals.ScoreRows | backend/app/domains/deals/service.py:46-51 | the loop keeps the deals that score above zero, in order |
| Deals.ListDeals | backend/app/domains/deals/service.py:14-55 | the page and the total of the filtered, scored and sorted deals |
| DealMeaning.ListingIsExact | backend/app/domains/deals/service.py:14-131 | for every query, a deal is listed exactly if it scores above zero and is that of an available offer of the category, at most at the limit, some criterion of some own active watchlist of the query agreeing if there are any |
| DealMeaning.DealDescribes | backend/app/domains/deals/service.py:81-131 | its score is the rounded sum of what its reasons are worth: min(discount, 60), 35, 25 and, for the first own watchlist that asks for the product, 20, 30, 20; each reason is listed exactly if its condition holds, flags included |
| DealMeaning.EligibleIsDescribed | backend/app/domains/deals/service.py:24-51 | every such offer has exactly one such deal, listed exactly if it scores |
| Deals.DealsDistinctAndSorted | backend/app/domains/deals/service.py:24-53 | no offer is listed twice and scores descend |
| Deals.TiesKeepOrder | backend/app/domains/deals/service.py:46-53 | deals of one score come in the order of their offers |
| Deals.AcceptedIsListed | backend/app/domains/deals/service.py:39-51 | every available offer some active watchlist with a criterion accepts is listed |
| Deals.OnExactlyOnePage | backend/app/domains/deals/service.py:55 | at offsets 0, L, 2L, ... position i is on page i / L and no other |
| Deals.PersonalizedDealsComplete | backend/app/domains/deals/service.py:14-131 | so each such offer has exactly one deal, on exactly one page |
| Tokens.CreateTokenPair | backend/app/domains/auth/service.py:18-36 | one session with the token's hash and the expiry one lifetime later |
| Tokens.RotateRefreshToken | backend/app/domains/auth/service.py:39-67 | an unknown token changes nothing, an expired session is deleted, otherwise hash and expiry are overwritten |
| Tokens.CleanupSessions | backend/app/domains/retention/service.py:34-37 | exactly the sessions that expire at or before now go, and their number is returned |
| Tokens.TokensAreSingleUse | backend/app/domains/auth/service.py:18-67 | over any history of logins, rotations, cleanups and erasures with new tokens, no token is accepted twice |
| Tokens.SessionsMatchTokens | backend/app/domains/auth/service.py:18-67 | in every such history sessions and the live tokens handed out correspond one to one |
| Tokens.RotationSucceedsIff | backend/app/domains/auth/service.py:39-67 | a rotation succeeds exactly for the token of an unexpired session of an existing user; it keeps the session count, kills the old token and makes the new one live |
| Tokens.NewTokenLives | backend/app/domains/auth/service.py:18-67 | a token handed out at a login is accepted exactly up to one lifetime later, for an existing user |
| Tokens.RenewedTokenLives | backend/app/domains/auth/service.py:39-67 | so is one handed out at a rotation; the session keeps its id and user |
| Tokens.RotationTouchesOne | backend/app/domains/auth/service.py:39-67 | only the session of the presented token is touched: renewed in place if unexpired, gone if expired; an unknown token, or one whose user is gone, changes nothing |
| Tokens.CleanupRemovesIffDead | backend/app/domains/retention/service.py:34-37 | a session is removed exactly if no rotation at a strictly later time accepts it; at the instant of expiry the two disagree |
| Tokens.CleanupIsInvisible | backend/app/domains/retention/service.py:34-37 | no later rotation can tell whether a cleanup ran |
| Retention.CleanupRetainedData | backend/app/domains/retention/service.py:23-65 | each of four tables keeps exactly the rows its cutoff spares, and the counts are those of the rows gone |
| Retention.DeleteOldRuns | backend/app/domains/retention/service.py:43-58 | old runs and their items go; without old runs nothing is touched |
| Retention.RunsGoWithTheirItems | backend/app/domains/retention/service.py:43-58 | between and after the two deletions every item has its run; a kept run keeps all its items, a deleted one leaves none |
| Privacy.CountUserData | backend/app/domains/privacy/service.py:110-144 | the counts are those of the rows an export lists |
| Privacy.DeleteUserData | backend/app/domains/privacy/service.py:147-171 | the outcome is that of the statements in order, or the tables as before if one is refused |
| Privacy.ErasureMeans | backend/app/domains/privacy/service.py:147-171 | an unknown Telegram id changes nothing; for the one user who has it, a notification of another user that links to a row of the user leaves all as it was, and otherwise exactly the other users' rows are left and the counts are those of the rows gone |
| Privacy.WithoutLeavesOthers | backend/app/domains/privacy/service.py:157-170 | per table, which rows are left and how |
| Privacy.DeletionSucceedsIff | backend/app/domains/privacy/service.py:157-170 | the deletion goes through exactly if no other user's notification links to this user's watchlists or requests, and then all the user's rows are gone |
| Privacy.EveryStageIsSound | backend/app/domains/privacy/service.py:157-170 | no state the deletion passes through has a dangling reference |
| Privacy.DeletionRemovesTheExport | backend/app/domains/privacy/service.py:39-71 | per table, the exported rows and the rows left are together the table |
| Privacy.StatsCountTheRemovedRows | backend/app/domains/privacy/service.py:116-171 | each returned count is the number of rows removed from its table |
| Privacy.OthersUntouchedIff | backend/app/domains/privacy/service.py:168 | other users' watchlists keep every column exactly if none came from this user's requests |
| Privacy.SharedRequestLinks | backend/app/domains/watchlists/service.py:13-22 | a watchlist made from another user's request, and a notification generated for it, keep the database sound and block that user's deletion |
| Privacy.SharedRequestBlocksDeletion | backend/app/domains/watchlists/schemas.py:15-20 | the smallest such database |
| Paging.FetchRecords | backend/app/integrations/stores/srovname_api.py:40-68 | the loop asks for pages until one is empty, short or last, or the cap is reached, and returns their products joined |
| Paging.LastPageIff | backend/app/integrations/stores/srovname_api.py:187-193 | the reported total marks a page as last exactly if at most one page of items remains |
| Paging.PagingIsExact | backend/app/integrations/stores/srovname_api.py:52-68 | from any first page, a faithful server is read in order for exactly what the pages allowed hold, with exactly that many requests |
| Paging.RequestsCounted | backend/app/integrations/stores/srovname_api.py:61-66 | the requests counted page by page are min(cap, max(1, ceil(T / size))) with a total and min(cap, T / size + 1) without |
| Paging.FirstPagesAreRead | backend/app/integrations/stores/srovname_api.py:46-68 | from page one the first min(T, cap * size) of T items are read, all of them exactly if T <= cap * size |
| Paging.LimitedServerIsReadIff | backend/app/integrations/stores/srovname_api.py:64 | a server that limits pages below the size asked for is read for one page, so everything is read exactly if that page holds it |
| Text.SplitOfJoin | backend/scripts/telegram_allowlist.py:8 | splitting undoes joining when no item holds the separator |
| Text.JoinOfSplit | backend/scripts/telegram_allowlist.py:8 | a text is split into the items without separators that join to it |
| Text.StripBares | backend/scripts/staging_preflight.py:47 | stripping leaves a text that neither begins nor ends with a stripped character, and leaves alone exactly such texts |
| Text.StripPadded | backend/scripts/staging_preflight.py:43-47 | what stands between stripped characters, and is bare, is what is left |
| Text.LinesFirst | backend/scripts/staging_preflight.py:42 | a text without breaks up to a line feed is one line of its own |
| Allowlist.BuildAllowlistValue | backend/scripts/telegram_allowlist.py:5-15 | the nested loops print the ids of all items, or report the first item that is not decimal |
| Allowlist.FirstBadItem | backend/scripts/telegram_allowlist.py:12-13 | a list is refused exactly for a non-decimal item, and the error names the first |
| Allowlist.AllowedTelegramUserIds | backend/app/core/config.py:59-65 | the loop parses every non-empty item, or fails on one that is not an integer |
| Allowlist.SignedParses | backend/app/core/config.py:59-65 | a printed number is read as that number, and after a sign with that sign |
| Allowlist.NumeralIff | backend/app/core/config.py:59-65 | a numeral begins and ends with a digit and has single underscores between digits only |
| Allowlist.ItemBetweenBlanks | backend/app/core/config.py:59-65 | blanks around an item do not count, and blanks alone are no item |
| Allowlist.ListsJoin | backend/scripts/telegram_allowlist.py:5-11 | commas separate items for printer and parser, line feeds for the printer too |
| Allowlist.PrintedValue | backend/scripts/telegram_allowlist.py:15 | a printed number is read back as itself |
| Allowlist.ParseOfBuilt | backend/scripts/telegram_allowlist.py:5-15 | the printer accepts exactly inputs whose items are all decimal, and parsing what it prints gives the set of ids of the input |
| Allowlist.BuildOfBuilt | backend/scripts/telegram_allowlist.py:15 | the printed ids strictly increase, and printing the printed text gives it again |
| Allowlist.BuiltAllows | backend/app/core/config.py:68-70 | with a printed list, exactly the ids of the input pass, or everyone when the input holds none |
| Allowlist.ParserAcceptsMore | backend/app/core/config.py:59-65 | what the printer accepts as one comma list the parser reads as the same ids |
| Allowlist.PrinterAcceptsIff | backend/scripts/telegram_allowlist.py:12-13 | of what the parser accepts, the printer accepts exactly the texts without a sign and without an underscore |
| Allowlist.MarkedIdsAreParsedOnly | backend/app/core/config.py:59-65 | texts with a sign and with an underscore are parsed |
| EnvFile.LoadEnvFile | backend/scripts/staging_preflight.py:38-48 | the loop assigns, in order, every line that is not blank, not a comment and has an equals sign |
| EnvFile.LineSaysNothing | backend/scripts/staging_preflight.py:42-45 | a blank line, a comment after any blanks, and a line without an equals sign assign nothing |
| EnvFile.LineSays | backend/scripts/staging_preflight.py:43-47 | any other line assigns, to what stands before its first equals sign, the rest less the quotes at its ends, blanks around either not counting |
| EnvFile.LineReadBack | backend/scripts/staging_preflight.py:43-47 | a printed line assigns its value, less the quotes at its ends, to its key |
| EnvFile.LoadOfPrinted | backend/scripts/staging_env_template.py:36-68 | values of one line come back less the quotes at their ends, later lines winning |
| EnvFile.PlainComesBack | backend/scripts/staging_env_template.py:36-119 | plain values come back as they are |
| EnvFile.RoundTripIff | backend/scripts/staging_preflight.py:38-48 | with distinct keys a printed file is read back exactly if every value has no line break and no quote at an end |
| EnvTemplate.SeenValue | backend/scripts/staging_env_template.py:36-119 | what the preflight script sees under a key of a written file |
| EnvTemplate.PlainFileComesBack | backend/scripts/staging_env_template.py:36-119 | a written file with plain values is seen as its settings |
| EnvTemplate.BackendShows | backend/scripts/staging_env_template.py:35-68 | the backend file shows database, redis, secret, reporting and alert arguments under their keys, and reporting on exactly with an endpoint |
| EnvTemplate.BotShowsServices | backend/scripts/staging_env_template.py:69-87 | the bot file shows the addresses, the token, the allowlist and the links |
| EnvTemplate.BotShowsMode | backend/scripts/staging_env_template.py:69-87 | the bot file shows mode and webhook |
| EnvTemplate.LinksShow | backend/scripts/staging_env_template.py:88-113 | the web app and operator files show the links and the admin token |
| EnvTemplate.OriginOfUrl | backend/scripts/staging_env_template.py:192-194 | the origin of scheme://host/path is scheme://host |
| EnvTemplate.OriginAllowedIff | backend/scripts/staging_preflight.py:203-208 | for a web app at scheme://host/path, the check of the allowed origins passes exactly if the script reads that origin, or none, off the URL |
| EnvTemplate.WrittenFilesAgree | backend/scripts/staging_preflight.py:190-231 | the four files written from one set of arguments pass the seven equality checks between services, even where quotes were lost |

## Left out

- Columns that carry no decision: image urls, attributes, raw data, message texts, `sent_at`, product variants' own fields beyond their unique shape, store rows.
- Rows come in `(created_at, id)` order also where a query names no order (the product of a SKU), and two rows with one time keep that order.
- Prices and rates are exact; the binary floats, the `Decimal` columns and their rounding when stored are not modelled, and `ceil(n * 0.1)` is the integer ceiling of n / 10.
- The normalisers of names and product identities, with their Unicode steps, are parameters; upper-casing of currencies is ASCII.
- Database faults, partial commits and concurrent workers; the uniqueness of a brand's name beside its normalised name.
- A refused statement undoes its whole transaction, as a rollback does.
- Source types without an adapter, which abort a round before its commit.
- The size entries of a record are well formed, so building them cannot fail after catalogue writes.
- An insert the database refuses, for a product id that does not exist, is taken to leave the session usable for the next record.
- The snapshot and the two analytics rows of one offer write carry one time, where the code reads the clock for each.
- Fetching the quotes over HTTP and reading them from the answer; the model starts from the quotes.
- Hashes, access tokens and random tokens: the hash is any function without collisions, and new tokens are new.
- Failures of the message client other than a delivery error, which abort a dispatch.
- The shape of the exported document; the model keeps its rows and its counts.
- Turning a Srovname product into a record, which may reject the whole answer; entries of a page that are no objects.
- Numbers too long for Python's conversion limit, in the allowlist.
- EnvTemplate.WrittenFilesAgree: takes the spelling of the keys as a parameter that writes distinct plain names; such spellings exist (EnvTemplate.SpellingExists).
- EnvTemplate.OriginAllowedIff: takes what `urlparse` reads as the origin of a URL as a parameter, because parsing a URL is not modelled.
- The HTTP routes, the bot, the web pages, the job queue, logging and metrics; shopping requests and recommendations; the configuration checks on URLs.
