# A verified model of the listing board

The board is one mutable table of listings served by a search API, changed by signed requests, and
filled by syncs from outside directories. The modules here model the parts of it that carry a
promise across several calls, several steps or several processes, and prove those promises.

| part | modules |
|---|---|
| search: keyset pages, cursors, filters, facets | Keyset, SqlRules, Search, SearchResults, Facets, FacetLaws, Cursors, CursorForms, FlatJson, Base64 |
| the table and the statements that change it | Listings, Statements, Database |
| import sync: plan, preview, upsert, mark missing | Refusals, Batches, SyncRuns, SyncLaws, SyncRepeats, ImportSync, ImportApply, SyncTheorems, SyncAcceptance |
| the life of a listing under interleaved requests, sync and purge | Lifecycle, Ownership, Freshness, BrowseRuns |
| signed requests and their replay protection | WalletAuth, SignedRequests |
| the rate limiter | RateLimit, RateHistory |
| endpoint keys and Solana addresses | Endpoint, EndpointKeys, EndpointTexts, Queries, Utf8, Texts, Base58 |
| the verifier's published facts, refreshed one at a time | VerifierInfo |
| shared definitions | Wrappers, Orders |

`dafny verify dfyconfig.toml` checks everything.

How the model is shaped:

- A row is a value and the table is a map from id to row. Each SQL statement is one atomic step:
  a function in `Statements` says what it makes of the table, and a method of the class
  `Database.Database` carries it out on the mutable table and is proved to do just that. A write
  that a unique index refuses leaves the table as it was.
- Whatever the code updates in place is a class or a loop (`Database`, `RateLimiter`, `NonceTable`,
  `Cache`, the sync's methods), proved against functions, about which the laws over whole runs are
  then lemmas. A concurrent protocol is a state machine whose steps may interleave freely.
- The endpoint normaliser is a function parameter `norm` everywhere but in `Endpoint`: the table's
  laws hold for any normaliser.
- Times are microseconds as integers where they are stored, and reals where a clock reads seconds
  as a fraction.

Where the code does not give a property without a condition, the condition is a precondition:

- Nothing writes between planning a sync and applying it (dry run, crash and re-run).
- A law about a whole sync speaks of runs that the database does not refuse. Which upserts it
  refuses is settled exactly by `Refusals.ResyncRefusedIff` and `Refusals.FirstImportRefusedIff`;
  `TwoSourcesOneOffering` is the batch that stops half-way, and a sync without offerings is never
  refused (`SyncWithoutOfferingsRuns`). `SyncSurvivesCrash` assumes this of the
  uninterrupted run only and proves it of the second one.
- Ids made for new rows are new.
- That a browse repeats nothing (`BrowseRuns.ActivityGrows`, `BoardBrowseNeverRepeats`) needs `OnClock`:
  the writes to listings commit in the order of the times they stamp. The routes read the clock before
  their statement, so two requests can commit the other way round; `LateWriteFalls` is a run from the
  empty board in which they do and a listing's activity falls.
- A cursor can carry the time or the float a row is ordered by: it is one that has a text. `CursorForms`
  gives text forms for every instant of the years 1 to 9999 and every double, so the search laws
  speak of every board whose ids are plain and whose values are such.
- Calls on the limiter and on the nonce table take effect in clock order, though each reads the
  clock before it takes the lock.
- No signature recovers to the placeholder address that owns unclaimed listings.

Where the code and its own words differ, the model follows the code:

- `app/core/endpoint.py` promises one key per service, but a key is not always its own key.
  `KeyIsFixedIff` says exactly when it is; `SpaceBeforeSlash` is an instance.
- `app/core/wallet_auth.py` says a nonce is remembered as long as its timestamp could be fresh. The
  clock reading is truncated to whole seconds and the horizon is not, so the last fraction of a
  second can fall outside it. `ReplayProtectionExact` gives the exact condition,
  `HalfASecondIsReplayed` a header outside it.
- `app/core/rate_limit.py` tells a client on a full day to come back after midnight, and truncates the
  seconds until then: `DayWaitReachesMidnight` says exactly when the wait falls short.
- `app/core/rate_limit.py` accepts a window of zero or less. Then an instant serves a client as
  often as it calls, up to the day's cap. `BoundedIff` gives the settings that keep the bound.
- `app/core/db.py` says a later sync never recreates a removed listing. One planned before the
  removal and applied after it does: `ReimportedIff` says exactly when an endpoint can be upserted
  again, `StaleUpsertLands` when that brings it back, `RemovedAndRecreated` is such a run from the
  empty board.
- `app/core/import_sync.py` says one row per endpoint, the last one winning, gives the end state of
  upserting each in turn. It does wherever both are accepted (`CollapsingChangesNothing`), and the plan
  is accepted if the batch in its own order is and lists each endpoint under one source
  (`PlanIsAccepted`). Where two sources share an endpoint the plan goes source by source and can be
  refused where the batch's own order is not: `PlanRefusedWhereBatchIsNot`.
- A claim goes to the wallet its request was admitted for, which a sync may have replaced meanwhile:
  `ClaimGivesTheAdmittedWallet` says exactly when the owner is still the payment wallet, and
  `ClaimOutlivesTheWallet` is a run from the empty board that ends with it not being so.
- The `by_source` facet adds up to the total unless some source is really called "none" (or empty)
  while other rows have no source: `BySourceAddsUp` has both directions.

## Model

| member | source | states |
|---|---|---|
| Keyset.PageContents | app/core/db.py:491-518 | a page holds exactly the rows below the cursor and not below the next one, in strictly descending (value, id) order, and is full whenever there is a next one |
| Keyset.NextPageContinues | app/core/db.py:491-518 | on an unchanged table what is left after a page is precisely the rest of the ranked list |
| Keyset.SteadyRowReturnedOnce | app/core/db.py:521-583 | for arbitrary tables at every page of a finished walk, a row whose sort value never changes is returned exactly once |
| Keyset.GrowingRowNeverRepeated | app/core/db.py:521-583 | a row whose sort value only grows is returned at most once, finished walk or not, whether it comes and goes or not |
| Keyset.PassedRowNeverReturned | app/core/db.py:521-583 | a row that is at or above the cursor on every page is never returned |
| Keyset.FallingRowIsRepeated | app/core/db.py:521-583 | a finished walk that returns a row twice, the second time after its value fell |
| Keyset.RepeatedIff | app/core/db.py:521-583 | a walk returns a row exactly if one of its pages finds it between the page's cursor and its next, and repeats it exactly if two of them do |
| Keyset.RepeatedRowHasFallen | app/core/activity.py:31-35 | a row a walk returns twice has a strictly lower value at a later page than at an earlier one |
| Keyset.QuietWalkIsTheSortedList | app/core/db.py:521-583 | without writes the pages of a finished walk, put end to end, are the one sorted list |
| Keyset.QuietWalkCompletes | app/core/db.py:521-583 | without writes a walk of enough pages finishes |
| Search.FilterConditions | app/core/db.py:416-476 | the list of conditions the query is built from, the payment and stale conditions in SQL's three-valued logic, holds of a row exactly if the filter, read as one question about its columns, does |
| SqlRules.PayableSqlKeeps | app/core/db.py:445-463 | the SQL over a payment option keeps exactly those on the network asked for whose amount is known and within the cap, in a stablecoin of that network whatever the letters' case |
| SqlRules.KeyedIffInCoin | app/core/stablecoins.py:31-35 | looking up the text network, bar, lower-case asset among the keys is looking the coin up: no two coins or options share a key |
| SearchResults.SelectedIs | app/core/db.py:416-476 | column by column, what each argument asks of a listing for a search to select it, in each mode |
| SearchResults.PageListsSelected | app/api/routes/listings.py:247-349 | every page in every mode, by cursor or offset, lists at most `limit` and at most 100 selected listings, each once, and its total is the number selected |
| SearchResults.RefusedIff | app/api/routes/listings.py:247-349 | a search is refused exactly for an argument out of its bounds, a cursor given with an offset, or a cursor that is not for this request |
| SearchResults.ListedIsWithinPrice | app/core/db.py:445-463 | a listing found under a price cap has one option on the asked network, in a stablecoin, at most at the cap |
| SearchResults.HigherCapLosesNothing | app/core/db.py:445-463 | raising the cap, or dropping it, loses no listing in any mode |
| SearchResults.FirstModeIs | app/core/db.py:572-602 | without a query a browse; with one full text exactly if that finds a matching listing |
| SearchResults.PageIsInOrder | app/core/db.py:491-518 | on any page the later activity, the greater rank or the closer text comes first, and of equals the greater id |
| Orders.TextLeqIff | app/core/db.py:514-516 | the order of ids: a text comes no later than one it starts, or one that is greater where they first differ |
| SearchResults.OffsetsListEverything | app/core/db.py:491-518 | on an unchanged table the API's pages at offsets 0, limit, 2 * limit and so on join to the ranked result, in all three modes |
| SqlRules.ActivitySqlIsLastActivity | app/core/activity.py:31-35 | the SQL expression, GREATEST over nullable columns with COALESCE for the last, has the value of the Python maximum on every row |
| SqlRules.StaleSqlIsStale | app/core/db.py:467-475 | the SQL condition, in three-valued logic, is never NULL and keeps exactly the rows whose `stale` field is true; its NOT keeps exactly the others |
| Search.StaleSplitsResults | app/core/db.py:467-475 | with one clock, adding the SQL filter stale=true or stale=false to any conditions leaves exactly the rows they keep whose `stale` field is true, or false |
| Search.StaleSplitsViews | app/core/db.py:467-475 | so in every mode the two filters split what a query sees in two disjoint parts, sort values included |
| Search.NextRequestIsAt | app/api/routes/listings.py:333-341 | sending a next cursor back resumes at the key it was made from, in the same mode and query |
| Search.ClientWalkIsKeysetWalk | app/api/routes/listings.py:247-349 | a client that follows next cursors through changing tables walks the keyset pages of the mode its first page chose |
| Search.WalkListsSteadyRowOnce | app/api/routes/listings.py:247-349 | whatever is written between requests, a finished walk lists every row that stays put exactly once, in any of the three modes |
| Search.BrowseNeverRepeats | app/core/activity.py:31-35 | browsing by last activity lists no row twice as long as activity only grows |
| Search.QuietWalkFinishes | app/api/routes/listings.py:247-349 | on a table that stays as it is, as many requests as listings always finish the walk |
| BrowseRuns.ActivityFallsOnlyByEarlierWrites | app/core/activity.py:31-35 | a step lowers a listing's last activity only if it stamps the listing with a time before it |
| BrowseRuns.EarlierWriteFalls | app/core/db.py:382-397 | and a PATCH stamped with such a time lowers it |
| BrowseRuns.LateWriteFalls | app/core/db.py:382-397 | a run from the empty board: two of an owner's PATCHes commit against the order of their times, and the listing's activity falls |
| BrowseRuns.ActivityGrows | app/core/activity.py:31-35 | along any run of requests, syncs and purges on one clock, no listing's last activity falls while it is there |
| BrowseRuns.BoardBrowseNeverRepeats | app/api/routes/listings.py:247-349 | a browse whose pages are read along any such run lists no listing twice |
| Search.QuietWalkListsEverythingInOrder | app/api/routes/listings.py:247-349 | on a table that stays as it is, a finished walk lists the matching rows in order, each once |
| Facets.FacetsAgreeWithSearch | app/core/db.py:690-733 | for the same arguments the facets count as many rows as the first search page's total, in all three modes |
| Facets.FacetsConserveRows | app/core/db.py:659-687 | the types add up to the total, the categories to the total length of the rows' category lists, the sources to the total exactly if no label is shared |
| Facets.BySourceAddsUp | app/core/db.py:683-686 | folding rows without a source into "none" loses rows exactly when that label, or the empty one, was taken |
| Facets.ByCategoryAddsUp | app/core/db.py:661-670 | the per-category counts add up to the number of (row, category) pairs |
| FacetLaws.TypeFacetTellsTotal | app/core/db.py:659-733 | a type's count is the total of the same search narrowed to that type, in all three modes |
| FacetLaws.NetworkFacetTellsTotal | app/core/db.py:659-733 | a network's count is the total of the same search narrowed to that network, unless a price cap must be met there too |
| FacetLaws.CategoryFacetTellsTotal | app/core/db.py:659-733 | a category's count is the total of the same search narrowed to that category, for rows that name none twice |
| FacetLaws.SourceFacetIs | app/core/db.py:683-686 | each source with a name of its own is listed with the number of rows from it |
| Cursors.DecodeEncode | app/core/pagination.py:63-102 | decoding the text of a cursor gives back its mode, value, id and fingerprint, for every id of 1 to 64 characters and every value that has a text |
| Cursors.ResolveEncoded | app/core/pagination.py:105-120 | a cursor is accepted by its own kind of request with a query of the same fingerprint, and refused with the right error by every other |
| Cursors.QueriesToldApart | app/core/pagination.py:105-120 | another query takes a search's cursor exactly if the two digests start with the same 16 characters |
| Cursors.CursorFits | app/core/pagination.py:75-77 | the text of a cursor the board makes is never longer than the 512 characters the route accepts |
| Cursors.CodecIsSound | app/core/pagination.py:63-120 | text forms faithful and short on the values they can write make a codec that meets all the search walk assumes |
| CursorForms.SomeCodecIsSound | app/core/pagination.py:63-120 | there are such text forms for every instant of the years 1 to 9999 and every double-precision number |
| CursorForms.EveryBoardCanBeBrowsed | app/api/routes/listings.py:247-349 | with them a client browsing any table with plain ids and such times reaches the end, having listed every matching row once |
| FlatJson.ReadWritten | app/core/pagination.py:75-77 | reading back compact ASCII-escaped JSON gives the fields written, through escapes and surrogate pairs |
| Base64.DecodeEncode | app/core/pagination.py:76-87 | the lenient decoder undoes unpadded base64url of every byte string, whose length it fixes |
| Base64.PadUndoesStrip | app/core/pagination.py:77-86 | the padding stripped on the way out is the padding put back on the way in |
| Database.Database.CreateListing | app/core/db.py:346-353 | the row is stored with the key of its URL, no heartbeat and no missing mark, exactly if its id is new and both indexes then hold; else nothing changes |
| Database.Database.FindActiveDuplicate | app/core/db.py:361-379 | an id is reported exactly if some other active offering has this endpoint, this owner in any case, and this scope |
| Database.Database.UpdateListing | app/core/db.py:382-397 | only the named columns change, a new URL brings its key, a refused or missing row changes nothing |
| Database.Database.SetListingStatus | app/core/db.py:400-401 | only the status and the time of change move |
| Database.Database.RecordHeartbeat | app/core/db.py:404-413 | the heartbeat lands exactly if the row is there, active, and without a heartbeat after the cutoff; else nothing changes |
| Database.Database.ClaimListing | app/core/db.py:768-778 | only an unclaimed row is claimed, and an index may still refuse it |
| Database.Database.RemoveImportedListing | app/core/db.py:781-799 | an imported row is deleted and its source and endpoint put on the list together, or neither |
| Database.Database.PurgeExpiredTestListings | app/core/db.py:751-762 | the rows deleted are expired test rows, the oldest of them, at most `limit`, and all of them if fewer |
| Database.Database.DoNotImportKeys | app/core/db.py:811-823 | exactly the listed endpoints that are on the do-not-import list of the source |
| Database.Database.ExistingImportListings | app/core/db.py:839-850 | exactly the endpoints the source already has, each with whether it is claimed |
| Database.Database.ImportUpsert | app/core/db.py:853-892 | inserts or refreshes the one row of its source and endpoint and says which, or is refused and changes nothing |
| Database.Database.PreviewMissing | app/core/db.py:895-904 | exactly the active, unmarked rows of the source whose key is none of the URLs', which are those marking would mark |
| Database.Database.MarkMissing | app/core/db.py:907-921 | marks exactly the active, unmarked rows of the source that were not seen, and changes nothing else |
| Database.IndexesRefuseExactlyClashes | app/core/db.py:163-167 | writing a row is refused exactly if another has its import key, or it is an active offering the duplicate check would report |
| Listings.LowerSameIff | app/core/db.py:163-167 | two texts have one lower case exactly if they differ in no more than the case of ASCII letters |
| Statements.IndexesAre | app/core/db.py:163-167 | both indexes by their columns: no two imports share source and key, no two active offerings share scope, key and owner in any case |
| Statements.PatchSetsWhatItNames | app/core/db.py:382-397 | column by column, a PATCH gives what it names the value it names and leaves the rest; nothing moves exactly if they all had it |
| Statements.UpsertEffect | app/core/db.py:867-892 | an upsert touches the row at its key, which is unique, or adds one row, and nothing else |
| Statements.FreshRowIs | app/core/db.py:853-892 | a first import is unclaimed, the placeholder's, active, real, dated by the import, with the record's content and the board's own template link where it has one |
| Statements.RefreshedRowIs | app/core/db.py:826-892 | a re-sync moves the sync time, takes the missing mark away, and replaces content only while unclaimed; nothing else moves |
| Statements.TemplateLinkIs | app/core/db.py:873-882 | the template link names the listing, and slashes at the end of the board's URL make no difference |
| Statements.UpsertKeepsSources | app/core/db.py:251-254 | an upsert never makes a second row for a source and endpoint |
| Statements.MarkKeepsIndexes | app/core/db.py:907-921 | marking can trip neither index and changes which imports exist in no way |
| Batches.EveryRecordIsValidOrRejected | app/core/import_sync.py:95-120 | records = valid + rejected, and exactly the records that break a rule are rejected, each with its reason |
| Batches.IsControlIff | app/core/imports.py:44 | the control characters a source may not hold: those below the space but for tab, line feed and carriage return, and delete |
| Batches.RecordBecomes | app/core/imports.py:51-142 | the caller's source wins over the record's own, an empty one counts as none, space around it does not count, and a bad source is told before any other problem |
| Batches.LastSaidIsLast | app/core/import_sync.py:172-181 | what a batch says of an endpoint is what its last unblocked row says |
| Batches.CollapseRepresents | app/core/import_sync.py:172-182 | the insertion-ordered dictionary ends with one row per unblocked endpoint, the last one said |
| Batches.ImportableRepresents | app/core/import_sync.py:165-182 | over all sources the plan writes exactly what the batch says last, once for each endpoint |
| ImportSync.ValidateAll | app/core/import_sync.py:95-120 | the loop yields the valid rows and the rejections, which add up to the records |
| ImportSync.CollapseSource | app/core/import_sync.py:172-182 | the loop's rows are the collapsed ones, and rows = kept + blocked + duplicates |
| ImportSync.PlanSync | app/core/import_sync.py:141-189 | writes nothing; valid = importable + skipped + duplicates, the blocked rows are the skipped ones, and each source's preview is what marking would reach |
| ImportApply.DryRunCounts | app/core/import_sync.py:192-208 | the counts are the numbers of new, known and claimed endpoints and of listings a marking would reach, told from the table alone |
| ImportApply.UpsertSeesStart | app/core/import_sync.py:224-226 | at its turn in the run, an upsert finds its endpoint present, and claimed, exactly if the table before the run had it so |
| ImportApply.MarkSeesStart | app/core/import_sync.py:227-230 | what marking a source finds after all upserts and the earlier marks is what the preview found before them |
| ImportApply.ApplyPlan | app/core/import_sync.py:218-230 | the outcome has exactly the sizes the dry run counted; a refused upsert leaves the writes before it and marks nothing |
| ImportApply.ImportListings | app/api/routes/admin_import.py:118-160 | the report of a dry run and of the real run on one table are one function of the table and the batch; the real run makes exactly the batch's writes |
| SyncRuns.RunHasShape | app/core/db.py:867-921 | what any run makes of any table is settled by what it put last at each key and which sources it marked |
| SyncRuns.ShapeDetermines | app/core/db.py:867-921 | two runs of equal effect leave equal tables up to sync times and the ids and times of new rows |
| SyncRuns.ShapeSharesIndexes | app/core/db.py:867-892 | and if one of them trips no index, neither does the other |
| SyncLaws.CrashAndRerunConverge | app/core/import_sync.py:218-230 | stopping after any prefix of the writes and making all of them again is not refused and ends as one whole run does |
| SyncLaws.LastOneWins | app/core/import_sync.py:173-181 | writing one collapsed row per endpoint ends as upserting every unblocked row in turn |
| SyncLaws.UpsertsStaleNothing | app/core/import_sync.py:218-226 | no run of upserts sets or moves a missing mark |
| SyncRepeats.RepeatIsQuiet | app/core/import_sync.py:218-230 | a completed run made again is not refused, inserts nothing, finds nothing to mark, and leaves every row as it was but for its last-synced time |
| SyncTheorems.SyncSurvivesCrash | app/core/import_sync.py:218-230 | the convergence law for whole batches, the second time planned anew with other ids at another time |
| SyncTheorems.SyncWithoutOfferingsRuns | app/core/db.py:867-892 | a sync whose records are no offerings is never refused, whatever the table, so the laws of whole syncs hold of it without that premise |
| SyncTheorems.SyncTwiceIsQuiet | app/core/import_sync.py:218-230 | the quiet repeat for whole batches, planned anew with other ids at another time: not refused, and nothing but last-synced times moves |
| SyncTheorems.CollapsingChangesNothing | app/core/import_sync.py:173-182 | last one wins for whole batches where both orders are accepted: for new, unclaimed and claimed listings alike |
| SyncAcceptance.RunsIffAcceptable | app/core/db.py:867-892 | a run that puts no endpoint under two sources is accepted exactly if the table before it takes each of its rows by itself |
| SyncAcceptance.PlanIsAccepted | app/core/import_sync.py:173-182 | if the batch is accepted row by row in its own order and lists each endpoint under one source, its plan is accepted too |
| SyncAcceptance.PlanRefusedWhereBatchIsNot | app/core/import_sync.py:165-182 | two sources share an endpoint and the offering moves from one to the other: accepted in the batch's order, refused in the plan's |
| SyncTheorems.SyncShowsTheBatch | app/core/db.py:853-892 | after a sync every unblocked endpoint of the batch has its listing, not missing, with what the batch said last and its own template link, or, if claimed, what it had |
| SyncTheorems.SyncMarksTheRest | app/core/db.py:907-921 | after a marking sync every active listing of its sources that the batch no longer lists carries the missing mark |
| SyncTheorems.SyncMarksExactly | app/core/db.py:853-921 | exactly which listings are missing after a sync, by columns of the row before it, for marking and other syncs, blocked and upserted endpoints alike |
| SyncTheorems.SyncMarksOnlyTheGone | app/core/db.py:907-921 | what goes missing by a sync was active, of a source in the sync, and is not in the batch |
| SyncLaws.OthersUntouched | app/core/import_sync.py:218-230 | a listing that is neither in the batch nor of a source in the sync is left exactly as it was |
| SyncTheorems.CrashBeforeMarkingStalesNothing | app/core/import_sync.py:218-226 | wherever a sync stops among its upserts, no listing has gone missing by it |
| SyncTheorems.ReplanAsksTheSame | app/core/import_sync.py:141-189 | planning is deterministic: the same batch asks for the same writes in the same order |
| Refusals.ResyncRefusedIff | app/core/db.py:867-892 | a re-sync is refused exactly if it makes an unclaimed active listing an offering that duplicates one of the same owner |
| Refusals.FirstImportRefusedIff | app/core/db.py:867-892 | a first import is refused exactly if it is an offering another unclaimed import duplicates |
| Refusals.TwoSourcesOneOffering | app/core/db.py:163-167 | two sources that list one offering: the second upsert is refused |
| Lifecycle.EveryReachableStateIsGood | app/core/db.py:163-167 | in every interleaving of requests, syncs and purges both indexes hold, a key is its URL's, unclaimed listings are imported, active, never seen and the placeholder's, no listing is claimed twice, heartbeats are a day apart |
| Lifecycle.UpsertKeepsRows | app/core/db.py:853-892 | the sync's update branch, which rewrites URLs and not keys, keeps every key its URL's |
| Lifecycle.StepKeepsTickets | app/api/routes/listings.py:597-680 | a request authorised by an owner never gets to write to an unclaimed listing, however late it commits |
| Lifecycle.StepKeepsClaims | app/core/db.py:768-778 | no step lets a listing be claimed a second time |
| Lifecycle.CommitKeepsBeats | app/core/db.py:404-413 | a heartbeat that lands is at least a day after every earlier one |
| Freshness.OnlyItsHeartbeatMovesSeen | app/core/db.py:404-413 | a step moves a listing's last heartbeat exactly if it is its own, the listing is active and a day has passed, and then to that step's time |
| Freshness.InactiveIsNeverSeen | app/core/db.py:404-413 | over any run, as long as a listing stays inactive nothing gives it a heartbeat, however late an admitted one commits |
| Freshness.OnlySyncMovesMark | app/core/db.py:853-921 | a step sets a missing mark exactly if it marks the listing's source, the listing is active, unmarked and not among those seen; only an upsert of its endpoint takes it away |
| Freshness.InactiveIsNeverMarked | app/core/db.py:907-921 | over any run, as long as a listing stays inactive nothing marks it missing |
| Freshness.SyncNeverMarksInactive | app/core/db.py:907-921 | a listing its owner took down stays inactive and unmarked through any syncing |
| Lifecycle.ListingsContinue | app/core/db.py:768-799 | over any run a listing keeps its scope, source and creation time, and once claimed stays claimed; ids are never reused |
| Lifecycle.SyncSparesClaimed | app/core/db.py:826-836 | once a listing is claimed, any syncing, even of earlier plans, moves only its last-synced time and its missing mark |
| Ownership.RealListingsLeaveOnlyByRemoval | app/core/db.py:751-799 | over any run from the empty board a listing that is not a test listing leaves only by a removal, signed by the wallet that was its payment wallet when the request was admitted, and never by a purge |
| Ownership.ClaimGivesTheAdmittedWallet | app/api/routes/listings.py:687-720 | a claim that lands makes the owner the wallet that was the payment wallet when it was admitted; they still agree exactly if the wallet is the same at the end, which it is if no sync refreshed the listing in between |
| Ownership.ClaimOutlivesTheWallet | app/core/db.py:768-778 | a run from the empty board: a sync replaces the payment wallet between a claim's check and its write, and the old wallet owns the listing |
| Lifecycle.RemovedIsNeverReimported | app/core/import_sync.py:172-178 | once an endpoint is removed and no earlier plan still lists it, no sync ever upserts it again |
| Lifecycle.ReimportedIff | app/core/db.py:781-799 | some run upserts a removed endpoint again exactly if a plan from before the removal still lists it |
| Lifecycle.StaleUpsertLands | app/core/db.py:853-892 | that upsert recreates the listing exactly if nothing has that endpoint meanwhile and it is no offering another unclaimed import duplicates |
| Lifecycle.StalePlanReimports | app/core/db.py:781-799 | removing a listing and then upserting a row planned before recreates it, offerings included unless another unclaimed import duplicates them |
| Lifecycle.RemovedAndRecreated | app/core/import_sync.py:172-178 | from the empty board: import, plan again, remove, upsert, and the endpoint is both removed and listed |
| Lifecycle.WaitIsExact | app/api/routes/listings.py:785-798 | waiting the reported seconds makes the next heartbeat acceptable; a second less does not |
| WalletAuth.MessageInjective | app/core/wallet_auth.py:115-128 | equal signed messages have equal action, listing, timestamp, nonce and body digest, for nonces with newlines too |
| WalletAuth.NonceCanImitateBody | app/core/wallet_auth.py:125-127 | without the rule which actions sign a body, a nonce could spell one out |
| WalletAuth.NonceTable.VerifyWalletAuth | app/core/wallet_auth.py:155-200 | when each outcome is given, in the order of the checks, by the clock, the nonce table and the recovered signer, and what it leaves in the table |
| SignedRequests.VerdictsExact | app/core/wallet_auth.py:155-200 | over any requests in clock order each verdict is told from the requests alone: late or early, nonce used for this wallet within two maximum ages, no signature over this request, another's, or accepted |
| SignedRequests.AcceptedIsSigned | app/core/wallet_auth.py:184-200 | whatever the nonce table held, an accepted request carries a signature over its own action, listing, timestamp, nonce and body by the wallet it needs |
| SignedRequests.SignatureVouchesForOneRequest | app/core/wallet_auth.py:115-128 | a signature a wallet made over one request gets no other request accepted in its name |
| WalletAuth.MessageIs | app/core/wallet_auth.py:115-128 | the text that is signed |
| WalletAuth.NonceTable.PruneExpired | app/core/wallet_auth.py:89-100 | exactly the nonces older than twice the maximum age are dropped |
| WalletAuth.NonceRemembered | app/core/wallet_auth.py:89-112 | through any later requests and prunings a nonce is refused for two maximum ages |
| WalletAuth.NoReplay | app/core/wallet_auth.py:103-112 | a protected header, once accepted, is never accepted again |
| WalletAuth.ReplayProtectionExact | app/core/wallet_auth.py:171-183 | a header is safe over all later runs exactly if its last fresh instant does not outlive the horizon |
| WalletAuth.HalfASecondIsReplayed | app/core/wallet_auth.py:171-183 | a header accepted at 100.5 and dated 400, with a maximum age of 300, is accepted again at 700.75 |
| WalletAuth.OneSecondIsEnough | app/core/wallet_auth.py:171-172 | a timestamp one second inside the window's forward edge is always safe |
| WalletAuth.NoReplayOnWholeTicks | app/core/wallet_auth.py:171-183 | on a clock of whole seconds every accepted header is safe |
| RateLimit.RateLimiter.CheckIp | app/core/rate_limit.py:48-85 | the fields end, and the caller is answered, as the step function of the limiter says, eviction included |
| RateHistory.DayFullExact | app/core/rate_limit.py:51-66 | over calls in clock and day order, the cap turns a call away exactly if that many were served earlier that day |
| RateHistory.TooManyExact | app/core/rate_limit.py:68-79 | any other call is one too many exactly if its client's window, told from the calls, has counted more than the maximum with it; the wait is what is left of the window, rounded up, at least a second |
| RateHistory.TooManyHasCause | app/core/rate_limit.py:68-79 | a client told to slow down made at least the maximum of calls within the last window |
| RateHistory.WithinLimitIsServed | app/core/rate_limit.py:48-85 | a client with fewer calls than the maximum in the last window is served unless the day is full |
| RateHistory.RetryAfterIsLeast | app/core/rate_limit.py:73-79 | a second less than the wait a client is told is too soon |
| RateHistory.DayWaitReachesMidnight | app/core/rate_limit.py:55-65 | the wait told on a full day reaches midnight exactly if midnight is a whole number of seconds off or at most one |
| RateLimit.EvictionIsInvisible | app/core/rate_limit.py:82-85 | for calls in clock order every decision and Retry-After is that of a limiter that never forgets |
| RateLimit.TwiceTheMaximum | app/core/rate_limit.py:68-81 | in any interval as long as the window a client is served at most twice the maximum |
| RateLimit.BoundedIff | app/core/rate_limit.py:68-81 | over all calls in clock order, with each instant on one day, a client gets at most twice the maximum in a window (or an instant) exactly if the window is positive, nothing is served at all, or the cap is positive and at most that |
| RateLimit.DailyCapHolds | app/core/rate_limit.py:55-66 | over days that do not go back, at most the cap is served on each |
| RateLimit.DayCountsOnlyServed | app/core/rate_limit.py:55-81 | what a day has used up of its cap is what it has served: calls refused by the window or by the cap are free |
| RateLimit.RateLimiter.Reset | app/core/rate_limit.py:87-91 | the limiter is left as a new one on that day |
| RateLimit.RetryAfterSuffices | app/core/rate_limit.py:73-79 | after the reported wait, whatever others did, the client starts a fresh window |
| Base58.IsBase58Pubkey | app/core/models.py:144-153 | accepts a text exactly if it is the base58 encoding of some 32 bytes |
| Base58.DecodeEncode | app/core/models.py:148-153 | decoding undoes encoding, leading zero bytes included |
| Base58.EncodeDecode | app/core/models.py:148-153 | encoding undoes decoding: one reading per text, one spelling per byte string |
| Base58.ThirtyTwoBytesFit | app/core/models.py:146-147 | the length guard turns away no encoding of 32 bytes |
| Base58.EncodingDenotes | app/core/models.py:144-153 | an encoding, read in base 58, is the number the bytes are, with a "1" for each leading zero byte |
| Base58.AlphabetIs | app/core/models.py:36 | the alphabet is the ASCII digits and letters without 0, I, O and l, in ASCII order |
| Endpoint.SameKeyIffSameService | app/core/endpoint.py:13-24 | two accepted URLs with an authority get one key exactly if scheme, host, effective port, cleaned path and the multiset of decoded query pairs agree |
| EndpointTexts.SameKeyIff | app/core/endpoint.py:1-24 | two URLs as written have one key exactly if scheme and host agree in any case and but for dots after the host, requests go to one port, paths have the same segments and queries the same pairs; user information, fragments and white space around make no difference |
| EndpointTexts.SamePathIff | app/core/endpoint.py:22 | two paths clean to one exactly if they have the same segments between slashes |
| EndpointTexts.HostIs | app/core/endpoint.py:16 | the host of a key is the one text without a final dot that the lower-case host is but for dots after it |
| EndpointKeys.KeyIsFixedIff | app/core/endpoint.py:13-24 | the key of an accepted URL with an authority is its own key exactly if the URL has a scheme, the host read from it reads back, and neither the cleaned path nor a host with nothing printed after it ends the key in white space |
| EndpointKeys.SpaceBeforeSlash | app/core/endpoint.py:22-24 | the path "/ /": the key of the key is another key |
| Endpoint.ReadsWell | app/core/endpoint.py:14-23 | whatever the URL, what is read from it has a lower-case scheme and host, no trailing dot, and a collapsed path without trailing slash |
| Queries.ParseEncoded | app/core/endpoint.py:23 | reading back the form encoding of any pairs gives those pairs |
| Queries.ParseQueryJoins | app/core/endpoint.py:23 | the pairs of two queries joined by an ampersand are those of the one and then those of the other |
| Queries.PartReads | app/core/endpoint.py:23 | a part is cut at its first equals sign, and has an empty value without one |
| Queries.UnquoteQuoted | app/core/endpoint.py:23 | percent-decoding undoes percent-encoding of every text |
| Utf8.DecodeEncode | app/core/endpoint.py:23 | UTF-8 decoding with replacement undoes encoding |
| VerifierInfo.AtMostOneRefresh | app/core/verifier_info.py:200-225 | in every interleaving of start, snapshot and background refreshes at most one refresh runs |
| VerifierInfo.KnownIsKept | app/core/verifier_info.py:128-179 | no step loses a known section, and only a fresh fetch of it changes its data |
| VerifierInfo.KnownForever | app/core/verifier_info.py:128-179 | a section once known is known in every later state |
| VerifierInfo.LiveIsTruthful | app/core/verifier_info.py:226-236 | the status is live exactly if both sections are there and each one's latest attempt in this process succeeded |
| VerifierInfo.NoRefreshBeforeDue | app/core/verifier_info.py:193-225 | after a completed attempt no snapshot starts another before the TTL, or the backoff, is over |
| VerifierInfo.SnapshotStartsWhenDue | app/core/verifier_info.py:193-225 | a snapshot starts a refresh exactly if refreshing is enabled, none runs, and there was no attempt or its TTL, or backoff, is over |
| VerifierInfo.RestartShowsWhatWasSaved | app/core/verifier_info.py:128-150 | a restart after a save shows every section known when it was saved, with its facts, not marked live |
| VerifierInfo.RefreshRuns | app/core/verifier_info.py:153-180 | a refresh that runs on its own can take all its steps, and they end in one stated state |
| VerifierInfo.Cache.Refresh | app/core/verifier_info.py:153-180 | the method leaves the fields as the steps of a refresh on its own leave the state machine, whatever the database and the fetches return |
| VerifierInfo.Cache.Snapshot | app/core/verifier_info.py:212-244 | a refresh starts exactly if none runs and one is due; the status says whether no, one, or two sections are known, and live exactly if both are; the time is the oldest |

## Left out

- HTTP routing, MCP tools, response and error texts, the manifest, logging and badges: text and plumbing.
- PostgreSQL itself: pool, migrations and trigger; text rank and word similarity are uninterpreted numbers per row and query.
- ECDSA recovery, SHA-256 and canonical JSON of a request body: an abstract recovered signer and an abstract digest.
- General JSON: the cursor reader knows one flat object without nesting or spaces; texts of times and floats are parameters with a round trip on the values they can write; Python's own formats are not modelled.
- Floating point: rank, similarity, price and clock readings are reals.
- Texts with lone surrogates, which Python can hold and UTF-8 cannot.
- Lower case and width folding of non-ASCII hosts and addresses, and the library's NFKC check of non-ASCII authorities.
- Endpoint: what the library accepts between square brackets is the parameter `ip6`.
- Endpoint.SameKeyIffSameService: URLs without an authority, which the listing models refuse before any key is made.
- Listing fields: validation of a record is reduced to the first problem it has, if any, and the source rule, which is modelled; the counters of dropped payment options and derived wallets are not.
- PATCH pricing consistency: it is checked against an earlier read of the row and so holds only for an atomic PATCH.
- Search: each search and each facet call reads one clock and sees one table, though the code issues several statements for it.
- Search: the log of queries, and the opportunistic purge in front of it, which Lifecycle has as a step of its own.
- RateLimit and WalletAuth: one clock reading per request; the code reads the clock before it takes the lock, and reads wall clock and monotonic clock one after the other.
- Lifecycle: the duplicate check before a write is left to the index that decides; IndexesRefuseExactlyClashes shows they agree.
- Lifecycle: a request that read a listing and never writes; it changes nothing.
- VerifierInfo: what the fetched documents must look like; `Cache.Refresh` stamps both documents with one time, the state machine with one each.
- ImportSync: parsing the batch text, the board's own URL and the one-import-at-a-time lock; `ids` stand for the identifiers made for the records.
- Removal: the reason and time on the do-not-import list are stored by Database and not looked at elsewhere.
- Badge fetching, payment, operator and demo scripts, the import key, and body limits.
