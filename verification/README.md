# Proofs about the TAP proxy

A Dafny model of the TAP trading proxy: the order and fill lifecycle over a
persistent store, the market-data subscription layers, the start-up and
reconnect state machines, the snapshot caches, the publish queue and request
validation. Objects the program updates in place are classes with the same
fields; each of their methods is proved against a function of the old state,
and what the program promises is proved about those functions and about every
run of the transition systems built from them. `dafny verify dfyconfig.toml`
checks everything.

| module | what it models |
|---|---|
| `Prelude`, `Text`, `Symbols` | shared vocabulary; strip, upper, split; the four-part contract symbol |
| `OrderStore`, `TradeStore`, `MemoryStore` | the two tables as values, their operations, and the in-memory store as the object it is |
| `SqlStore` | the PostgreSQL statements as relations over unordered tables with unique indexes |
| `OrderLifecycle` | the protocol as a transition system: store, volatile session, `place_order` calls with program counters, history of native calls and publications, crash and restart |
| `SubmissionSafety`, `OrderIndexes`, `CancelSafety`, `FillSafety` | invariants of all its runs |
| `CommandAnswers`, `FillRows` | what the order commands and callbacks answer, store and publish, read off the states around them |
| `OrderSession` | the session object; its methods are the transition system's functions |
| `Registry`, `MarketData`, `SubscriptionRace` | reference counts, the layers above the quote API with their rollbacks, the flag/set race line by line |
| `InitialSync`, `Reconnect`, `SnapshotCache` | the query chain behind readiness, the backoff loop, the position and order caches |
| `PublishQueue` | the bounded queue and its publisher |
| `CacheRows` | what the caches hold and which names they know, in terms of the native rows |
| `Requests`, `RequestNormalForm`, `RequestMeaning` | validation, its normal form, and what an accepted request says field by field |

The source has one `NativeTapSession`. Its fields fall into groups, and the
model has one class per group: `OrderSession`, `MarketDataSession`,
`SyncSession`, `Reconnector`, `QueryCache`. Besides the readiness check and the
reconnect counter one field is shared: `_symbol_by_short` is also written by
quotes, fills, subscriptions and the rows of the other cache, which `QueryCache`
sees as `Learn`.

Assumptions. Every run of the order protocol is one the program admits
(`Enabled`): each store call and native call of `place_order` and each single
publication is a step, other handlers are one step, a fill is handled only when
no publication is in progress, and a crash may fall between any two steps. Index
agreement, cancels and the attribution of fills also trust the exchange
(`HonestRun`): it issues no native id twice, and an order update carries its
order's `OrderNo` and `ServerFlag` or neither; distinct orders have distinct
pairs (`Proper`). The digest of a fill identity is any function; where two
identities must not collide, the lemma says which. In `SubscriptionRace` an
unsubscribe runs alone among the commands, as the proxy's one command loop has
it, and rebuilding a connection waits for its callback.

## What turned out not to hold

Each line names the lemma with the counterexample or the exact condition.

- Readiness after a disconnect. The repository's README (line 150) says `ready`
  returns only with a new initial sync. That holds when a reconnect follows the
  disconnect (`InitialSync.ReadyAfterReconnect`); without one, `on_disconnect`
  keeps the sync event, and from every synced state on a live API the session
  can be ready again with no new snapshot: `InitialSync.ReadyWithoutNewSnapshot`.
- An error of the account query stops the sync only when it comes before an
  account row; after one the chain goes on: `InitialSync.LateAccountError`. The
  sync can complete without a new chain exactly when a query is unanswered:
  `InitialSync.CompletesExactly`.
- A position or order query that passed the readiness check before a reconnect
  and is sent after it can make the session ready without a fund snapshot:
  `InitialSync.UnguardedQuerySkipsFund`. `InitialSync.SnapshotBeforeReady` is
  for runs without one.
- A cancel accepted as pending is lost when the process crashes while it waits,
  and stays lost until the client asks again: `CancelSafety.CrashLosesCancel`,
  `CancelSafety.NothingSentUnasked`.
- An order update that carries the order number but no known contract or side
  strands a parked cancel: `CancelSafety.StrandedCancel`, `UpdateReleases`.
- A failed unsubscribe always leaves the registry listing symbols the session
  has dropped; both rollbacks restore the registry only under a condition:
  `MarketData.FailedUnsubscribe`, `MarketData.FailedSubscribe`.
- An unsubscribe that runs while the ready callback is working from an older
  snapshot leaves the symbol subscribed natively for nobody:
  `SubscriptionRace.CallbackOvertaken`, with the exact condition in
  `SubscriptionRace.LeftBehindExactly`.
- A native call that raises on a live login can leave an active symbol
  unsubscribed: `SubscriptionRace.RaiseLosesSubscription`, with the exact
  condition in `SubscriptionRace.LostExactly`.
- An exception between `set_native` and the indexing leaves the order out of
  the identity indexes (`OrderIndexes.InterruptionLeavesGap`) until a cancel, an
  update, a repeated `place_order`, a fill attributed through the store or a
  restart brings it in: `OrderIndexes.StepGap` is the exact law of a step,
  `OrderIndexes.IndexesAreComplete` that of a run.
- A fill stored before a crash that falls between its publications is never
  published on the remaining topics, since its redelivery is ignored:
  `FillSafety.CrashLosesPublication`, with the exact condition in
  `FillSafety.PublishedExactly`.
- A fill without `ServerFlag` can be attributed to another owner when two
  orders share an `OrderNo`: `FillSafety.SharedOrderNoMisattributes`.
- A fill without `MatchNo` that is delivered once before and once after its
  order's number arrived is stored twice: `FillSafety.StoredTwice`, with the
  exact condition in `FillSafety.RedeliveryExactly`.
- An exhausted reconnect loop leaves its counter at the limit, so the next
  disconnect does not try at all; order snapshots inside failing connects
  defeat the bound: `Reconnect.ExhaustionIsSticky`, `SnapshotsDefeatBound`, with
  the exact condition in `Reconnect.BoundExactly`.
- A cached position or order read can be fresh by age and yet empty after a
  refresh that timed out or failed; a late answer to an earlier query, and
  closing the session, complete a refresh with too little:
  `SnapshotCache.EmptiedButFresh`, `LateAnswerCompletes`, `ClosingCompletes`.
- The protocol document (line 78) promises `invalid_request` for malformed
  values, but a malformed order symbol, an integer price or `max_age_ms` beyond a
  double and an infinite number in an integer field are answered
  `internal_error` with `retryable`: `RequestNormalForm.UnexpectedExactly`.
- Registry and session disagree from the start when a configured symbol is not
  written canonically: `RequestNormalForm.StartupAgrees`.
- The stores differ on an empty order number, and memory has no unique index on
  the order key: `SqlStore.FindByOrderNoAgrees`, `SqlStore.UpdateTapAgrees`.

## Model

| member | source | states |
|---|---|---|
| `SubmissionSafety.AtMostOnce` | src/tap_session.py:1281-1340 | over every interleaving of any number of calls with crashes and restarts, whatever ids the exchange issues, `insertOrder` is sent at most once per key and only for a stored key |
| `SubmissionSafety.NeverReplayed` | src/tap_session.py:1282-1319 | a key that was ever submitted is not submitted again; a later call for it gets a duplicate reply that asks for recovery exactly when no native id was stored |
| `SubmissionSafety.StatusMachine` | src/order_store.py:165-225 | in every reachable state a record has no native id exactly while PENDING_SUBMIT or SUBMIT_FAILED; native ids are unique as long as the exchange repeats none |
| `SubmissionSafety.HistoryKeeps` | src/order_store.py:173-225 | between any two states of a run no record is lost, a native id once set stays, SUBMIT_FAILED is absorbing |
| `SubmissionSafety.DuplicateReplies` | src/tap_session.py:1282-1319 | every duplicate reply of a run has `recovery_required` exactly when its record has no native id, that is, was never accepted |
| `SubmissionSafety.StepSafe` | src/tap_session.py:1281-1381 | each step of each handler keeps the submission invariant: every call in flight owns its reserved record and no key is submitted twice |
| `OrderLifecycle.CallRuns` | src/tap_session.py:1281-1389 | an uninterrupted `place_order` is a run of the transition system, so what holds of runs holds of whole calls |
| `OrderLifecycle.PublishRuns` | src/tap_session.py:1593-1607 | so is the publication of a recorded fill on all its topics |
| `OrderLifecycle.PlaceAccepted` | src/tap_session.py:1321-1389 | from any idle reachable state a fresh key can be placed, and the state after it is the one a reader expects |
| `CommandAnswers.PlaceAnswers` | src/tap_session.py:1273-1389 | a repeated key sends and stores nothing and is answered with what the store holds; a new one is sent once, and is placed exactly when the exchange gave no error and an id: the record, the reply and the indexes then hold it, and otherwise record and reply hold the reason |
| `CommandAnswers.CancelAnswers` | src/tap_session.py:1391-1421 | read off the states: refused exactly when neither session nor store knows a native id, pending exactly when the order waits and nothing was sent, sent exactly when one cancel with its pair was |
| `CommandAnswers.CancelAnswersInRuns` | src/tap_session.py:1391-1421 | in every reachable state that native id is the one stored with the order |
| `CommandAnswers.UpdateAnswers` | src/order_store.py:188-210 | a resolved update refreshes exactly one record that holds its native id and keeps what it leaves empty; any other update changes no record |
| `OrderSession.CallbackAnswers` | src/tap_session.py:86-95 | after the order callback that record is REJECTED exactly for an error or state 9, TRADED for 4, PARTTRADED for 3, SUBMITTED for 0 to 2, CANCELLED for 5 and 6, UNKNOWN otherwise |
| `OrderIndexes.IndexesAreSound` | src/tap_session.py:1434-1461 | in every reachable running state the identity indexes are mutually inverse and agree with the store, and every stored pair is in all three order-number maps |
| `OrderIndexes.IndexesAreComplete` | src/tap_session.py:1367-1381 | in every run, a stored native id that no call is about to index is indexed under its order exactly unless an exception kept it out and no later event brought it in |
| `OrderIndexes.StepGap` | src/tap_session.py:1438-1461 | each event leaves a gap in the indexes exactly when it interrupts the installation of an id nobody indexed, and closes one exactly when it is a restart, a cancel, an update, a repeated placement or a store-attributed fill of that order |
| `OrderIndexes.InterruptionLeavesGap` | src/tap_session.py:1367-1381 | an exception there does leave a stored native id that no index names, for every order |
| `OrderIndexes.QuiescentIndexes` | src/tap_session.py:1367-1381 | in runs without such an exception and with no call installing, the identity indexes equal the store's native column |
| `OrderIndexes.StepIndexes` | src/tap_session.py:953-990 | every handler, crash and restart keeps the index invariant |
| `OrderIndexes.RestoreIndexes` | src/tap_session.py:1434-1436 | rebuilding from a listing indexes every listed record and nothing the store does not hold |
| `OrderIndexes.RestoreIgnoresOrder` | src/tap_session.py:1434-1436 | the restored session does not depend on the order of the listing |
| `OrderIndexes.CancelHeals` | src/tap_session.py:1391-1405 | an order left out of the indexes by an interrupted installation is indexed by a cancel for its key |
| `OrderIndexes.UpdateHeals` | src/tap_session.py:967-971 | and by any update of its native id |
| `CancelSafety.CancelsAreRequested` | src/tap_session.py:1391-1432 | in every run each native cancel carries that order's own OrderNo and ServerFlag and was asked for by a client |
| `CancelSafety.DeferredCancels` | src/tap_session.py:1408-1414 | in every run whose updates resolve, crashes included, a parked cancel is sent at most once; it was sent or still waits exactly when no crash came while it waited, and in the current session it waits exactly while its order number is unknown |
| `CancelSafety.CrashLosesCancel` | src/tap_session.py:528 | for every order there is such a run in which a crash drops its parked cancel: the number is known, nothing was sent, nothing waits |
| `CancelSafety.NothingSentUnasked` | src/tap_session.py:1391-1432 | an order with no waiting cancel is not cancelled by anything that follows, restarts included, until a client asks for it |
| `CancelSafety.UpdateReleases` | src/tap_session.py:962-1014 | one update sends a parked cancel exactly when it carries the number and resolves; the waiting set stays disjoint from the numbered orders exactly then |
| `CancelSafety.StrandedCancel` | src/tap_session.py:972-975 | for every order there is a run in which an unresolved update leaves its cancel waiting although its number is known |
| `FillSafety.FillAttribution` | src/tap_session.py:1038-1050 | a fill of an order is never attributed to another owner, by memory or by any answer of the store |
| `FillSafety.FillAttributed` | src/tap_session.py:1038-1050 | once native id and order key are indexed a flagged fill is attributed to its order |
| `FillRows.FillOfOrder` | src/tap_session.py:1063-1124 | in every run the row a fill of an indexed order adds carries the order's client, strategy, client order id and symbol and each native column in its own field, and is announced on the account topic and the order's strategy topic |
| `FillRows.FillOfNobody` | src/tap_session.py:1083-1092 | a fill no order is known for is stored without an owner, under its own symbol, and announced on the account topic only |
| `FillRows.RowsAreFills` | src/tap_session.py:1063-1104 | over every run with crashes each stored row carries the columns of one delivered fill, the owner of the order it was attributed to, and an event id made from the row's own columns |
| `FillRows.OwnerReadsRow` | src/order_store.py:245-283 | the next page of the order's owner, once everything was read, is exactly the new row, whatever the limit; the next page of any other owner is empty |
| `FillRows.OthersNeverRead` | src/order_store.py:245-271 | no page of another owner shows it |
| `FillRows.FillAnswers` | src/tap_session.py:1103-1124 | a whole fill callback stores and publishes nothing, or stores one row and publishes it on its topics in order |
| `FillSafety.SharedOrderNoMisattributes` | src/order_store.py:148-163 | whenever two orders can share an OrderNo, some run attributes a flagless fill of one to the owner of the other |
| `FillSafety.StoredIsDelivered` | src/order_store.py:231-243 | in every run with crashes the table knows exactly the events of the fills delivered and stored |
| `FillSafety.RedeliveryIgnored` | src/tap_session.py:116-141 | a fill with a MatchNo delivered anywhere earlier in the run is neither stored nor published again, whatever crashed or was learned since |
| `FillSafety.RedeliveryExactly` | src/tap_session.py:1063-1104 | any fill is ignored exactly when the run delivered the same fill before, by MatchNo or else by its columns and what the session knew of its order then and knows now |
| `FillSafety.StoredTwice` | src/tap_session.py:1068-1080 | for every order and every fill of it without MatchNo there is a run that stores the fill twice, before and after the order number arrives |
| `FillSafety.ExactlyOnce` | src/tap_session.py:1063-1124 | over every run with crashes each event has one row, is published at most once per topic, only when stored and with that row's cursor, and cursors strictly increase on every topic |
| `FillSafety.FillsArePersistent` | src/order_store.py:231-243 | the stored fills of an earlier state are a prefix of those of any later state |
| `FillSafety.PublishedExactly` | src/tap_session.py:1115-1124 | in every run each stored fill was delivered by some event, and it is on all that fill's topics or being published exactly when no crash came while it was being published |
| `FillSafety.CrashLosesPublication` | src/tap_session.py:1112-1124 | for every fill there is a run in which a crash follows its recording: it is stored, published nowhere, and ignored when it comes again |
| `TradeStore.RecordKeepsTable` | src/order_store.py:231-243 | recording keeps ids increasing and every event in one row, whatever ids are skipped |
| `TradeStore.DrainIsComplete` | src/order_store.py:245-271 | following `next_after_id` until `has_more` is false reads exactly the owner's fills above the start, in order, none missed or repeated, for any limits and with fills appended between pages |
| `TradeStore.DrainEnds` | src/order_store.py:245-271 | once appends stop the drain ends after at most one page per remaining fill |
| `TradeStore.DrainEndsAtLatest` | src/order_store.py:273-283 | it ends at the larger of its start and `latest_trade_cursor` |
| `TradeStore.MatchingResumes` | src/order_store.py:245-271 | restarting after the q-th match yields the remaining matches |
| `TradeStore.PageIsPrefix` | src/order_store.py:245-271 | a page read early is the beginning of what a later table shows, and the cursor strictly advances while more remains |
| `TradeStore.PageHolds` | src/order_store.py:245-271 | a page holds rows of the owner above the cursor only, leaves none out below the cursor it returns, and says whether there are more |
| `TradeStore.PageShown` | src/order_store.py:253-271 | in id order, as many as the limit held between 1 and 1000 allows, ending at the cursor it returns |
| `TradeStore.LatestIsMaximum` | src/order_store.py:273-283 | the cursor is the largest id of the owner, zero when there is none |
| `MemoryStore.MemoryOrderStore.Reserve` | src/order_store.py:105-130 | reserves a new key as PENDING_SUBMIT and leaves a known one alone |
| `MemoryStore.MemoryOrderStore.Find` | src/order_store.py:165-171 | the search loop returns the first record that is hit |
| `MemoryStore.MemoryOrderStore.FindByNative` | src/order_store.py:144-146 | the first record with the native id; nothing for an empty one |
| `MemoryStore.MemoryOrderStore.FindByOrderNo` | src/order_store.py:148-163 | the first record with the number, and with the flag when one is given |
| `MemoryStore.MemoryOrderStore.SetNative` | src/order_store.py:173-186 | stores the native id as ACCEPTED, raises for an unknown key |
| `MemoryStore.MemoryOrderStore.UpdateTap` | src/order_store.py:188-210 | updates the record of a native id, keeping what the update leaves empty |
| `MemoryStore.MemoryOrderStore.MarkFailed` | src/order_store.py:212-225 | records the failure, raises for an unknown key |
| `MemoryStore.MemoryOrderStore.RecordTrade` | src/order_store.py:231-243 | appends a new event under the next id, returns nothing for a known one, raises for a blank one |
| `MemoryStore.MemoryOrderStore.ListTrades` | src/order_store.py:245-271 | the page as a filter and a cut |
| `MemoryStore.MemoryOrderStore.LatestTradeCursor` | src/order_store.py:273-283 | the loop computes the owner's latest cursor |
| `SqlStore.ReserveAgrees` | src/order_store.py:376-402 | INSERT ON CONFLICT DO NOTHING reserves as memory does |
| `SqlStore.SetNativeAgrees` | src/order_store.py:450-471 | the UPDATE commits exactly when no other order holds the native id, and then both stores agree |
| `SqlStore.UpdateTapAgrees` | src/order_store.py:473-499 | COALESCE/NULLIF computes what memory computes; it violates the unique index exactly when the pair belongs to another order |
| `SqlStore.MarkFailedAgrees` | src/order_store.py:501-517 | both stores record a failure of a known key alike |
| `SqlStore.FindByNativeAgrees` | src/order_store.py:419-430 | any answer of the query is the in-memory one |
| `SqlStore.FindByOrderNoAgrees` | src/order_store.py:432-448 | so it is for a number with a flag; without a flag both find some such order; for an empty number they agree exactly when no stored order without a number has the flag asked for |
| `SqlStore.StoresAgree` | src/order_store.py:376-517 | after any sequence of committed statements, on known keys or not, both stores hold the same orders and the unique indexes hold |
| `SqlStore.SelectIsPrefix` | src/order_store.py:551-583 | any answer WHERE, ORDER BY and LIMIT allow is the first rows of the in-memory scan |
| `SqlStore.ListTradesAgrees` | src/order_store.py:551-583 | fetching one row more and cutting gives the same page, cursor and `has_more` |
| `SqlStore.LatestCursorAgrees` | src/order_store.py:585-595 | COALESCE(MAX(id), 0) is the in-memory cursor |
| `SqlStore.RecordTradeAgrees` | src/order_store.py:525-549 | every insertion the database may make is one of the in-memory table, gaps in the sequence included |
| `OrderSession.OrderSession.constructor` | src/tap_session.py:1434-1436 | a restarted session holds the indexes rebuilt from the store's listing |
| `OrderSession.OrderSession.HydrateRecord` | src/tap_session.py:1438-1461 | puts exactly the record's native id and pair into the indexes |
| `OrderSession.OrderSession.Submit` | src/tap_session.py:1321-1389 | the first submission of a key hands the exchange the contract columns, the one-letter side, price and volume of the request, and ends as the transition system's call does, with the reply it logs |
| `OrderSession.OrderSession.PlaceOrder` | src/tap_session.py:1273-1389 | the whole command: not ready and bad symbols change and send nothing, a repeated key is answered from the store, a new one is sent and stored as `PlaceAnswers` says |
| `OrderSession.OrderSession.CancelOrder` | src/tap_session.py:1391-1421 | the command is the transition system's cancel step |
| `OrderSession.OrderSession.IndexOrder` | src/tap_session.py:959-971 | the part of an update before the contract is resolved |
| `OrderSession.OrderSession.OnOrder` | src/tap_session.py:940-1014 | the callback is the transition system's update step, and the order table afterwards is what the delivered letter, error and columns mean |
| `OrderSession.OrderSession.AttributeFill` | src/tap_session.py:1038-1050 | the owner found by the order key first, by the store second |
| `OrderSession.OrderSession.OnFill` | src/tap_session.py:1038-1124 | attribute, store, then publish on every topic; nothing is published for a duplicate, an unresolved contract or a store that raises |
| `OrderSession.OrderSession.PublishScoped` | src/tap_session.py:1593-1607 | the account topic, then the strategy topic of a known order, and nothing else |
| `Registry.SubscriptionRegistry.Subscribe` | src/registry.py:14-28 | the loop computes the registry and reply of the specification |
| `Registry.SubscriptionRegistry.Unsubscribe` | src/registry.py:30-47 | likewise, dropping symbols nobody holds |
| `Registry.SubscribedHolders` | src/registry.py:14-28 | subscribing adds the owner to every listed symbol, repeated or not, and touches no other; no owner set is empty |
| `Registry.SubscribedReply` | src/registry.py:14-28 | the reply is the symbols nobody held, once each, in request order |
| `Registry.UnsubscribedHolders` | src/registry.py:30-47 | unsubscribing removes the owner from every listed symbol; a symbol goes exactly when the owner held it alone |
| `Registry.UnsubscribedReply` | src/registry.py:30-47 | the reply is the symbols the owner alone held, once each, in request order |
| `Registry.Conservation` | src/registry.py:14-51 | over any call sequence, reported active minus reported inactive is one for an active symbol and zero otherwise |
| `MarketData.MarketDataSession.Subscribe` | src/tap_session.py:1141-1156 | all names are canonical before any is added; the quotes accepted before an exception are a prefix; without one the exchange is subscribed to exactly the added names more |
| `MarketData.MarketDataSession.Unsubscribe` | src/tap_session.py:1158-1177 | the active set loses the names even when the native call is missing or raises; without an exception the exchange is subscribed to exactly those names less |
| `MarketData.MarketDataSession.OnMdReady` | src/tap_session.py:703-706 | raises the flag and quotes every active symbol once, or a prefix of them when the native API raises |
| `MarketData.CanonicalAllExists` | src/tap_session.py:1144 | a subscription is refused before anything changes exactly when some symbol does not parse |
| `MarketData.CanonicalAllAt` | src/tap_session.py:1144 | each name used is the canonical text of the symbol in its place |
| `MarketData.TapProxy.HandleSubscribe` | src/proxy.py:160-185 | the command with its rollback, for any point at which the native call raises |
| `MarketData.TapProxy.HandleUnsubscribe` | src/proxy.py:186-211 | likewise |
| `MarketData.LayersAgree` | src/proxy.py:160-211 | without native exceptions registry and session agree after every command |
| `MarketData.SessionCovers` | src/proxy.py:160-211 | over any commands, subscribes failing or not, every registered symbol stays active in the session as long as no unsubscribe fails |
| `RequestNormalForm.StartupAgrees` | src/proxy.py:39-45 | the layers agree at startup exactly when every configured symbol is canonical |
| `MarketData.FailedSubscribe` | src/proxy.py:168-177 | a failed subscribe keeps the registry within the session, and restores it exactly when the owner held none of the symbols |
| `MarketData.FailedUnsubscribe` | src/proxy.py:194-203 | a failed unsubscribe restores the registry exactly when the owner held all of them, and always breaks the agreement |
| `MarketData.AddedMeans` | src/registry.py:14-28 | the session is asked to subscribe exactly the symbols that became registered |
| `MarketData.GoneMeans` | src/registry.py:30-47 | and to unsubscribe exactly those the owner alone held |
| `SubscriptionRace.NoSubscriptionLost` | src/tap_session.py:1141-1156 | at line-level interleaving with disconnects, when no call to subscribe raises on a live login, in every quiet ready state each active symbol was subscribed since the login |
| `SubscriptionRace.LostExactly` | src/tap_session.py:1151-1156 | with exceptions anywhere, the active symbols not subscribed in a quiet ready state are exactly those an exception cut off with nobody else about to subscribe them, and that no subscribe, unsubscribe or connection change has touched since |
| `SubscriptionRace.RaiseLosesSubscription` | src/tap_session.py:1151-1156 | for every symbol a run ends quiet and ready with the symbol active and not subscribed |
| `SubscriptionRace.MissingIsPending` | src/tap_session.py:703-706 | in the middle of any run a missing symbol was lost that way exactly when neither the callback nor any command is about to subscribe it |
| `SubscriptionRace.StepInv` | src/tap_session.py:1141-1177 | each line of each command and callback, each exception, login, drop and reconnect keeps the invariant: a live login has the flag or is about to raise it, and symbols being withdrawn are no longer active |
| `SubscriptionRace.LeftBehindExactly` | src/tap_session.py:1158-1177 | with no command running, a symbol is subscribed natively without being active exactly when the callback subscribed it after its removal, an unsubscribe saw the flag down or raised before withdrawing it, and nothing has touched it since |
| `SubscriptionRace.CallbackOvertaken` | src/tap_session.py:703-706 | a run in which an unsubscribe finishes between the snapshot and the quote of the callback and the session ends quiet, ready and subscribed to a symbol nobody wants |
| `InitialSync.SnapshotBeforeReady` | src/tap_session.py:650-658 | in every run in which no position or order query is sent across a reset, readiness implies that since the last reset fund, position and order snapshots each delivered an error-free last row, in that order |
| `InitialSync.ReadyExactly` | src/tap_session.py:640-658 | in every run the session is ready exactly when it was never closed and each signal it needs came after the latest event that takes it back: a reconnect takes back all four, a disconnect those of its channel, never the order snapshot |
| `InitialSync.QueriesBalance` | src/tap_session.py:1208-1247 | a client query that passed its check is sent once or still to be sent, none unchecked or twice |
| `InitialSync.StepChained` | src/tap_session.py:787-939 | every callback, guarded client query, disconnect and reset keeps the chain's invariant |
| `InitialSync.ErrorsStopChains` | src/tap_session.py:1479-1493 | in every run, once each chain started since the reset met an error below its account link, nothing of a chain is open and the sync is not complete until another account row arrives |
| `InitialSync.ErrorStopsChain` | src/tap_session.py:810-938 | so with one account row a single error in the fund, position or order link is enough |
| `InitialSync.AccountErrorStopsChain` | src/tap_session.py:787-808 | with the account query closed and no account row, nothing at all is open and the sync stays incomplete until the next login or reconnect |
| `InitialSync.LateAccountError` | src/tap_session.py:787-808 | an account error after an account row does not stop the chain: from every open unsynced state some continuation is ready with it |
| `InitialSync.ChainCompletes` | src/tap_session.py:723-727 | from every open state on a live API, whatever failed before, some continuation without a reconnect is ready |
| `InitialSync.CompletesExactly` | src/tap_session.py:810-938 | an open unsynced session can complete its sync without starting another chain exactly when a query of some chain is unanswered |
| `InitialSync.ReadyAfterReconnect` | src/tap_session.py:556-565 | after a disconnect that a reconnect follows, every ready state has all three snapshots delivered since the disconnect, in order, unless a position or order query was sent across a reset |
| `InitialSync.ReadyWithoutNewSnapshot` | src/tap_session.py:729-740 | from every reachable synced state on a live open session, after either channel drops, some run without a reconnect is ready with nothing delivered since but the account |
| `InitialSync.UnguardedQuerySkipsFund` | src/tap_session.py:1213-1221 | from every open state with a position or order query checked and not yet sent, a reset, that query and error-free answers lead to a ready session without a fund snapshot |
| `InitialSync.SyncSession.RequireReady` | src/tap_session.py:1463-1465 | the check at the head of a client query: it passes exactly when ready |
| `InitialSync.SyncSession.SendQuery` | src/tap_session.py:1221 | the native call at its end, whether or not a reset came in between |
| `InitialSync.SyncSession.AccountResponse` | src/tap_session.py:787-808 | an account row sets the account and asks for the fund |
| `InitialSync.SyncSession.FundResponse` | src/tap_session.py:810-839 | its last row asks for positions unless synced or closed |
| `InitialSync.SyncSession.PositionResponse` | src/tap_session.py:867-889 | its last row asks for orders unless synced or closed |
| `InitialSync.SyncSession.OrderResponse` | src/tap_session.py:914-938 | its last row completes the sync |
| `InitialSync.SyncSession.ResetConnectionState` | src/tap_session.py:640-648 | every event is cleared and no earlier query remains outstanding |
| `InitialSync.SyncSession.OnDisconnect` | src/tap_session.py:729-740 | clears the channel's own events only |
| `InitialSync.SyncSession.CloseSession` | src/tap_session.py:1730-1742 | closes once; every readiness event is down afterwards |
| `Reconnect.Reconnector.ReconnectLoop` | src/tap_session.py:1514-1540 | the loop makes the attempts, delays and counter of the specification for any behaviour of the environment |
| `Reconnect.Reconnector.Connect` | src/tap_session.py:556-588 | success, and an order snapshot on the way, reset the counter; finding the session ready does not |
| `Reconnect.DelayFormula` | src/tap_session.py:1520-1524 | the k-th delay is min(initial·2^(k−1), max) |
| `Reconnect.LoopEnds` | src/tap_session.py:1514-1540 | every delay belongs to an attempt and all but the last went on; closing ends the loop after the wait without a connect, success after it, the limit otherwise |
| `Reconnect.LoopCounts` | src/tap_session.py:1514-1540 | the counter it leaves is zero after success and otherwise the attempts since the latest order snapshot |
| `Reconnect.DelaysGrow` | src/config.py:131-141 | for accepted settings delays are nonnegative, never shrink and are capped |
| `Reconnect.DelaysAreConsecutive` | src/tap_session.py:1514-1527 | the delays of a run are those of consecutive attempt numbers when no failing connect completes an order snapshot |
| `Reconnect.AttemptsLeft` | src/tap_session.py:1514-1540 | then the loop plans and makes at most the attempts that are left, and ends within them |
| `Reconnect.BackoffBound` | src/tap_session.py:1514-1540 | and waits at most the maximal delay for each of them in total |
| `Reconnect.TimesIsProduct` | src/tap_session.py:1520-1524 | that total is attempts times maximal delay |
| `Reconnect.ExhaustionIsSticky` | src/tap_session.py:1536-1540 | an exhausted loop leaves the counter at the limit, and the next loop does not try |
| `Reconnect.SnapshotsDefeatBound` | src/tap_session.py:932-937 | order snapshots inside failing connects keep the loop connecting any number of times |
| `Reconnect.BoundExactly` | src/tap_session.py:1514-1540 | a loop still trying stays within its attempts under every steady continuation exactly when no failing connect so far completed an order snapshot |
| `SnapshotCache.CacheIsLastWrites` | src/tap_session.py:895-907 | a key is cached exactly when a row or push resolved to it since the latest refresh started, with what the latest one wrote |
| `CacheRows.OrdersByNative` | src/tap_session.py:990-1010 | the order cache holds one entry per native id: the symbol, side and columns of the latest row with that id since the latest refresh |
| `CacheRows.PositionsByContract` | src/tap_session.py:895-907 | the position cache holds one entry per contract and side, likewise |
| `CacheRows.OverwritesExactly` | src/tap_session.py:907 | of two resolving rows the later overwrites the earlier exactly when their native ids, or their contracts and sides, are equal |
| `CacheRows.NamesLearned` | src/tap_session.py:1609-1640 | a short contract name stands for the latest full name taught under it, by whichever row, push or subscription |
| `CacheRows.RefreshReports` | src/tap_session.py:1222-1224 | a released query reports an error exactly when an error row came since the refresh started |
| `CacheRows.OrderComesBack` | src/tap_session.py:1321-1337 | the native order of a request, reported back with its own columns, resolves to the symbol and side that were asked for |
| `SnapshotCache.SuccessfulRefresh` | src/tap_session.py:1216-1224 | a refresh succeeds on an open session only after a last row that arrived since it emptied the cache, its own unless an earlier answer came late |
| `SnapshotCache.FreshRead` | src/tap_session.py:1471-1477 | a cached read is served only within the age of the latest completed answer, which is behind the contents exactly when no refresh started since |
| `SnapshotCache.EmptiedButFresh` | src/tap_session.py:1214-1224 | after any fresh state, a refresh that timed out or was answered with an error leaves the age fresh and the contents empty |
| `SnapshotCache.LateAnswerCompletes` | src/tap_session.py:867-889 | the closing row of any earlier query completes a refresh with an empty reply |
| `SnapshotCache.ClosingCompletes` | src/tap_session.py:1742-1747 | closing the session makes a waiting refresh succeed with an empty reply |
| `SnapshotCache.EntriesStay` | src/tap_session.py:895-907 | without a client's refresh no entry ever leaves, a new initial sync included |
| `SnapshotCache.ShortFollowsFull` | src/tap_session.py:1609-1640 | a row naming its commodity type lets a later row without one resolve to the same symbol, which is canonical exactly when the columns are clean |
| `SnapshotCache.QueryCache.CanonicalFromData` | src/tap_session.py:1615-1640 | full names register and resolve, short names resolve through the registered ones |
| `SnapshotCache.QueryCache.RegisterSymbol` | src/tap_session.py:1609-1613 | a name that parses becomes what its exchange, commodity and contract resolve to; any other raises and changes nothing |
| `SnapshotCache.QueryCache.Learn` | src/tap_session.py:1147 | quotes, fills, subscriptions and rows of the other cache teach the cache contract names and change nothing else |
| `SnapshotCache.QueryCache.Update` | src/tap_session.py:895-907 | a row with contract and side overwrites the entry of its key, any other changes no entry; which rows share a key is `OverwritesExactly` |
| `SnapshotCache.QueryCache.OnResponse` | src/tap_session.py:867-889 | errors release the waiter with an error, last rows stamp the cache unless the row's processing raised |
| `SnapshotCache.QueryCache.BeginRefresh` | src/tap_session.py:1216-1221 | forgets the last error, empties the cache, clears the event |
| `SnapshotCache.QueryCache.FinishRefresh` | src/tap_session.py:1222-1224 | timeout, kept error or the contents; a timeout keeps the error |
| `SnapshotCache.QueryCache.Read` | src/tap_session.py:1214-1215 | an answer is served exactly when the latest answer completed in the object's history is within the age, and holds exactly the last write of every key since the latest refresh started |
| `PublishQueue.Publisher.EnqueuePublish` | src/proxy.py:105-116 | a blank topic raises, a full queue drops, anything else is appended |
| `PublishQueue.Publisher.Send` | src/proxy.py:318-328 | one attempt for the item in hand, gone whether or not it was sent |
| `PublishQueue.Publisher.Drain` | src/proxy.py:311-328 | the loop after a stop runs until the queue is empty and then ends |
| `PublishQueue.FirstInFirstOut` | src/proxy.py:105-116 | in every interleaving the queue keeps its bound and attempts are a first-in first-out prefix of what was accepted |
| `PublishQueue.Conservation` | src/proxy.py:311-328 | every item was sent, failed, was dropped, is in hand or queued exactly as often as it was offered |
| `PublishQueue.SentExactly` | src/proxy.py:318-328 | an attempt counts as sent exactly when its event has a name and the payload was encoded and taken |
| `PublishQueue.DroppedWhenFull` | src/proxy.py:113-116 | an offer is dropped exactly when `bound` accepted items wait |
| `PublishQueue.NothingLeftBehind` | src/proxy.py:313-317 | when the publisher leaves it has attempted everything accepted |
| `PublishQueue.AttemptsStop` | src/proxy.py:313-317 | what is accepted after that is never attempted |
| `PublishQueue.DrainAttemptsAll` | src/proxy.py:311-328 | left alone after a stop the publisher attempts the whole queue in order |
| `Symbols.RoundTrip` | src/protocol.py:102-122 | printing and parsing recovers a symbol exactly when its four fields are non-empty, trimmed, upper case and free of colons |
| `Symbols.ParseCanonical` | src/protocol.py:102-122 | parsing the canonical form of a parsed symbol gives the same symbol |
| `Symbols.ParseFields` | src/protocol.py:102-122 | four texts between colons are exchange, type, commodity and contract in this order, stripped and in capitals, and the canonical text holds them in this order |
| `Symbols.ParsedHasFields` | src/protocol.py:106-107 | nothing but four such texts parses |
| `Symbols.ParsedIsWellFormed` | src/protocol.py:102-111 | every parsed symbol has such fields |
| `Symbols.CanonicalDecides` | src/protocol.py:113-122 | two texts name the same contract exactly when their canonical forms coincide |
| `Text.StripSplits` | src/protocol.py:106 | stripping removes blanks at both ends and nothing else |
| `Text.UpperLetters` | src/protocol.py:106 | each small letter has the capital of its place in the alphabet, every other character stays |
| `Text.Blanks` | src/protocol.py:106 | the ten ASCII blanks and no other character are stripped |
| `Text.JoinSplit` | src/protocol.py:106 | the pieces of a split text, joined, are the text |
| `Text.SplitJoined` | src/protocol.py:106 | and pieces without the separator, joined and split, are the pieces |
| `Text.IntTextValue` | src/tap_session.py:1355-1357 | the number in the stored failure message reads back as the error code |
| `Requests.NormalizeSymbols` | src/protocol.py:165-175 | the loop keeps each canonical name at its first mention |
| `Requests.ValidateRequest` | src/protocol.py:178-277 | the step-by-step validation computes the specification for every JSON value and every number parser; what that accepts is `AcceptedExactly` |
| `Requests.PrepareCommand` | src/proxy.py:305-309 | validation and then the cache age, with the refusal that is answered when either fails |
| `Requests.Request.NormalizeIdentity` | src/protocol.py:152-158 | the identity fields are stripped in place, or the request is refused |
| `Requests.Request.RequireFields` | src/protocol.py:146-149 | null and the empty text count as missing |
| `RequestNormalForm.SymbolsMeaning` | src/protocol.py:165-175 | the names are duplicate-free, canonical, exactly those listed; it fails exactly when an item does not parse |
| `RequestNormalForm.SymbolsKeepFirstOrder` | src/protocol.py:173 | of two names the earlier was mentioned before the first mention of the later |
| `RequestNormalForm.ListFixed` | src/protocol.py:165-175 | a list in normal form is a fixed point |
| `RequestNormalForm.IdentityFixed` | src/protocol.py:152-158 | identities are fixed points exactly when trimmed and non-empty |
| `RequestNormalForm.AcceptedIsNormal` | src/protocol.py:178-277 | every accepted request is in the normal form of its action |
| `RequestNormalForm.FixedPoints` | src/protocol.py:178-277 | validation returns a request unchanged exactly when it is in normal form |
| `RequestNormalForm.Idempotent` | src/protocol.py:178-277 | validating an accepted request again succeeds and changes nothing |
| `RequestMeaning.AcceptedExactly` | src/protocol.py:125-277 | a request is accepted with a result exactly when it names an action and each field can be read: ids stripped, symbols canonical, the price, volume, side and integers given, fractions of integer fields cut toward zero, defaults 0 and 500, every other field as it came |
| `RequestMeaning.PreparedExactly` | src/proxy.py:305-309 | and the session gets a cache age exactly for a cached read that is not forced and gives one, with that value |
| `RequestMeaning.RefusedExactly` | src/proxy.py:262-303 | `unsupported_action` exactly for an action that is given and unknown, `internal_error` exactly for what the protocol does not foresee, `invalid_request` otherwise; only `internal_error` may be retried |
| `RequestMeaning.NoObjectRefused` | src/protocol.py:132-133 | what is not an object is an `invalid_request` |
| `RequestMeaning.CommaList` | src/protocol.py:166-167 | a comma-separated text of symbols is the list of its pieces |
| `RequestMeaning.LowerLetters` | src/protocol.py:134 | each capital letter has the small one of its place in the alphabet, every other character stays |
| `RequestNormalForm.OthersPassThrough` | src/protocol.py:181-182 | fields an action does not name come out as they went in |
| `RequestNormalForm.AcceptedSubscription` | src/protocol.py:184-189 | the names handed to the subscription layers are distinct and canonical for the session too |
| `RequestNormalForm.UnexpectedExactly` | src/proxy.py:265-309 | a request is answered `internal_error` with `retryable` before the session sees it exactly for an unparsable order symbol, an integer price or cache age beyond a double, or an infinite integer field, each where the other checks let it come that far |
| `RequestNormalForm.PlacementUnexpected` | src/protocol.py:191-225 | the same for order requests alone |

## Left out

- Native SDK construction, login, forwarding classes: the SDK is an environment that answers, fails or calls back.
- ZeroMQ sockets, the command loop, thread start and join: only the handlers and the queue are modelled.
- Handlers other than `place_order`, publication, subscription commands and the MD callback are single steps; for cancels the unlocked test and add are one step.
- The connection pool, schema creation, health checks and reordering of BIGSERIAL commits between concurrent transactions.
- The JSON payload column of stored orders and fills; the model keeps the columns the code reads back.
- Prefix stripping in `_decode_order_id`; the model starts from the decoded native id.
- JSON encoding and SHA-256 in the event id: a function parameter, injective only where a lemma says so.
- Clocks, time zones, trading days, quote payloads, `query_account` and its cache: library behaviour without a protocol of its own.
- The account number, the constant order type and the client settings of a native order, and a native cancel that raises.
- Reporting of status and error events, order and position event payloads, message texts beyond the stored failure message.
- Unicode: strip, upper and lower act on ASCII.
- Rounding of doubles and of decimal text: numbers in requests are reals and integers, the text parsers are parameters.
- Overflow of the backoff power to a float: delays are reals.
- Iteration order of sets and the sorted listing of active symbols; `SnapshotCache` replies are maps, so the order of cached rows is not modelled.
- The account number a fill or order row lacks: the program takes the session's current one, the model's rows carry the number already; and a fill stored although the store reported a failure.
- The symbol of a cached order whose identity is known: `SnapshotCache` keeps the row's own symbol, while the program prefers the stored one.
- `json_value`, response envelopes and the answers of `ping` and `status`: formatting.
- `PublishQueue.Publisher.Drain`: covers the loop after the stop; the running loop is the `Take` and `Deal` events of the interleavings, because producers act in between.
- `Reconnect.Reconnector.Connect`: only its effect on the counter; resets and queries are in `InitialSync`, and snapshots completing during the wait before an attempt are not modelled.
- `SnapshotCache.QueryCache.BeginRefresh`: assumes a live trade API; without one the program raises after emptying the cache, which `FinishRefresh` with a timeout stands for.
