# B46 ordering backend: a verified model

The backend takes orders in an ordering service and deducts stock in the database of a point-of-sale system through an
inventory adapter. The two databases share no transaction. An order is written together with an operation and an outbox
row; workers claim outbox rows under a lease and a fresh token, call the adapter, and apply its answer or schedule a
retry; the adapter decides all-or-nothing on shared, ceiling-expanded demand, deducts stock, and keeps a receipt per
operation. Beside it stand refresh-token sessions in families, a catalog in numbered snapshots, and rate-limited email
challenges. This project models these parts in Dafny and proves what they promise.

How it is built:

- Tables are maps from primary keys to rows. Each store is a class with its tables as fields; each transaction is a
  method with the source's branches in the source's order, proved equal to a function on the tables (answer and whole
  new state). The theorems are proved about those functions and hold for the methods through their contracts.
- `CommitDecision` says what the adapter decides without loop, map or order; `InventoryStore` holds the four loops and
  is proved against it for every order in which the maps yield their keys; `CommitTheorems` has conservation, exactness
  and replay.
- `Protocol` puts both databases, all callers and all workers into one step system. Claims and replies are never
  forgotten, so any worker may use any of them at any later time: that covers crashes, lost and duplicated replies,
  expired leases and several workers on one row. `ProtocolInvariant` has the inductive invariant in layers,
  `ProtocolProofs` and `ProtocolExchange` show that every action keeps it, `ProtocolTheorems` has the results.
- `Worker` runs the worker's loop on the two store objects and shows that, under every fault, it is a run of protocol
  steps (`Traces`, `WorkerSteps`), and that it drains a backlog when nothing goes wrong.
- `Canonical`, `Text` and `Timestamp` prove that the canonical string of a commit command identifies it, including the
  UUID texts of section 4 of RFC 9562 and the timestamps of section 5.6 of RFC 3339 with their calendar.
- `Checkout`, `Sessions` with `SessionTheorems`, `Catalog` with `CatalogTheorems` and `CatalogSync`, and `Registration`
  with `RegistrationTheorems` are the other state machines. `Basics` has identifiers, sums and sorting.

- The modules ending in `Meaning` say the same once more in the columns of the tables, without the definitions that
  methods and functions share: least covers and short lines, oldest rows and leases, carts and order lines, tokens and
  passwords, codes and clean-ups, first reads, and how the texts read.

Conventions:

- An identifier is a UUID read as a number, zero being the nil UUID; `Text.UuidTextOrder` shows that sorting by number
  is sorting by text. An instant counts nanoseconds since year 1. Composite quantities are thousandths. Freshly drawn
  UUIDs, clocks and faults are parameters. Hashes stand for their preimages.
- A committed SQL transaction is one step and an aborted one is none; the three tries of `Commit` are therefore zero or
  more aborts followed by one outcome. The lookup and the insert of a checkout are separate steps. Revoking a family and
  reading a catalog page are one step each.
- 64-bit money and delays are a bounded type, so every operation on them is proved not to overflow.

Where the code and its documentation differ, the model follows the code: `contracts/README.md` promises that reusing a
checkout identifier returns the same order, but the cart is compared with the catalog before the store is asked.
`Checkout.PriceChangeRefusesReuse` gives a checkout whose repetition is refused, and
`Checkout.ReuseReturnsTheOrderWhileTheCartMatches` says exactly when the promise is kept.

Verify the project with `dafny verify dfyconfig.toml`.

## Model

| member | source | states |
|---|---|---|
| ProtocolTheorems.ExactlyOnce | services/inventory-adapter/internal/inventory/adapters/postgres/store.go:98-247 | In every state of every run with crashes, lost or repeated calls, expired leases, several workers and outside sales: a confirmed order has a COMMITTED receipt and its aggregated demand has left each stock item once; a rejected one has an ITEMS_UNAVAILABLE receipt and nothing left; without a receipt nothing left; the receipt's verdict is the exact one on the tables the adapter held at the earlier step of the run whose call answered it |
| ProtocolTheorems.ReceiptsAreDecidedInTheRun | services/inventory-adapter/internal/inventory/adapters/postgres/store.go:98-131 | Every receipt was written by one call at an earlier step of the run, on the POS tables of that moment |
| ProtocolTheorems.DecisionsAreFinal | contracts/README.md:38-40 | A resolved operation, its order and its movements never change afterwards; a rejected order never moves stock |
| ProtocolTheorems.StockBalances | services/inventory-adapter/internal/inventory/adapters/postgres/store.go:211-237 | At all times the stock of each item is its initial value plus outside changes plus its recorded movements |
| ProtocolTheorems.DeductionsStayAboveZero | services/inventory-adapter/internal/inventory/adapters/postgres/store.go:213-218 | A call of the adapter leaves an item's stock as it was or lowers it to a value not below zero |
| ProtocolTheorems.RepliesAgree | services/inventory-adapter/internal/inventory/adapters/postgres/store.go:105-112 | Any two answers for one operation are equal whoever received them, and pass both services' validation |
| ProtocolTheorems.NeverConflicts | services/ordering/internal/ordering/adapters/postgres/store.go:397-440 | In no run does the adapter answer a claimed order with a conflict, does applying a reply meet a conflict, a missing row or a constraint, or does an insert of a draft fail on anything but its checkout |
| ProtocolTheorems.TablesStayInStep | services/ordering/internal/ordering/adapters/postgres/store.go:391-516 | SUBMITTED, PENDING and unpublished coincide; so do CONFIRMED, COMMITTED and having a fulfillment, and REJECTED and ITEMS_UNAVAILABLE; the customer state is always defined; one decision audit; version is one plus the advance audits and at most three |
| ProtocolTheorems.CheckoutIsIdempotent | services/ordering/internal/ordering/adapters/postgres/store.go:24-134 | With lookup and insert as separate steps of any number of callers, all successful callers of a checkout get one order id for one fingerprint, and at most one is told it is new |
| ProtocolTheorems.OrderHasOneOperation | services/ordering/internal/ordering/adapters/postgres/store.go:92-107 | Every order has exactly one operation and one outbox row, and its own caller was told it is new |
| ProtocolTheorems.NoCallerFails | services/ordering/internal/ordering/adapters/postgres/store.go:121-134 | No caller that lost the insert race is left without the order on its second look, and none ends with a database error |
| ProtocolTheorems.ClaimsAreFenced | services/ordering/internal/ordering/adapters/postgres/store.go:331-349 | For every outbox row in every reachable state: the attempt count is the number of claims taken; a current claim is the latest one; at most one is current; a published row has none and can never be claimed |
| ProtocolTheorems.SupersededClaimsDoNothing | services/ordering/internal/ordering/adapters/postgres/store.go:429-443 | Applying or retrying with a claim that is not current leaves every ordering table unchanged and reports the loss |
| ProtocolTheorems.OvertakenForever | services/ordering/internal/ordering/adapters/postgres/store.go:331-349 | A claim overtaken by a later one never becomes current again |
| ProtocolTheorems.RunGoesForward | services/ordering/internal/ordering/adapters/postgres/store.go:391-537 | Between any two moments of a run orders, receipts, an answered operation's movements, resolutions and published rows persist, and the customer-visible state only moves forward |
| ProtocolTheorems.PendingOperationsRecover | services/ordering/internal/ordering/adapters/postgres/store.go:518-537 | From any reachable state a pending operation whose row is due can be claimed; one call and one apply then resolve it if and only if it has a receipt or no rounded component quantity overflows its column; otherwise the call changes nothing and it stays pending |
| ProtocolTheorems.FreshCheckoutIsPlaced | services/ordering/internal/ordering/adapters/postgres/store.go:24-119 | From any reachable state a caller with fresh identifiers and an unused checkout is given a new pending order in three steps, whose row can be claimed from its occurrence time on |
| ProtocolTheorems.CallNeverConflicts | services/inventory-adapter/internal/inventory/adapters/postgres/store.go:249-271 | A reachable call presents the stored fingerprint or unused event identifiers, so the store never reports a conflict |
| ProtocolExchange.RunKeepsInv | services/ordering/internal/ordering/adapters/postgres/store.go:24-537 | Every step of every action keeps the protocol invariant, in every run |
| ProtocolExchange.ApplyOutcomeIs | services/ordering/internal/ordering/adapters/postgres/store.go:397-440 | Applying a reachable reply resolves the operation, finds the same resolution, or finds the claim lost, and which one is decided by status and token; the tables change only in the first case |
| ProtocolExchange.FirstCall | services/inventory-adapter/internal/inventory/application/service.go:42-58 | The first answered call of an operation decides on the current POS tables and leaves exactly its receipt and its movements |
| ProtocolExchange.RepeatedCall | services/inventory-adapter/internal/inventory/adapters/postgres/store.go:108-112 | A repeated call is answered from the receipt and changes nothing in the database |
| ProtocolExchange.EventsAreUnique | services/ordering/internal/ordering/adapters/postgres/store.go:99-107 | Outbox rows of different operations carry different event identifiers |
| ProtocolProofs.FreshDraftDoesNotClash | services/ordering/internal/ordering/adapters/postgres/store.go:68-107 | A draft with fresh identifiers can only collide on its checkout |
| Traces.StepsContinueTheRun | services/ordering/internal/ordering/application/worker.go:49-76 | Steps taken from a state of a run extend the run, so the theorems about runs cover what the worker does |
| Traces.ReachedStatesHaveInv | services/ordering/internal/ordering/application/worker.go:49-76 | Any stretch of steps from an invariant state ends in an invariant state |
| Traces.StepsStayReachable | services/ordering/internal/ordering/application/worker.go:49-76 | Steps taken from a state that some run reaches end in a state that some run reaches, so the worker's state is always one of a run of the protocol |
| ProtocolMeaning.ResolvedOrdersAreDecidedRight | services/inventory-adapter/internal/inventory/adapters/postgres/store.go:123-194 | In every state of every run: a confirmed order had no short line on the tables the adapter decided on and took exactly what its lines take, with every component rounded up to the least whole number; a rejected one had a short line, took nothing, and its operation keeps the report of exactly the short lines, with the requested quantities and what was available |
| ProtocolMeaning.CustomerSeesTheDecision | services/ordering/internal/ordering/domain/order.go:180-200 | In every state of every run the customer sees REJECTED exactly if the operation resolved to ITEMS_UNAVAILABLE, ON_THE_WAY exactly after one advance, DELIVERED exactly after two, and PREPARING otherwise |
| CommitDecision.CommitsExactlyWhenCovered | services/inventory-adapter/internal/inventory/adapters/postgres/store.go:123-194 | The commit succeeds if and only if every product exists and is active, every stock-tracked composite has components, and every stock item drawn on is physical and covers its summed demand |
| CommitDecision.ReportIsValid | services/inventory-adapter/internal/inventory/adapters/postgres/store.go:425-442 | The report repeats requested lines, lists a line once, and is empty exactly when nothing is unavailable |
| CommitDecision.ReportIsUnique | services/inventory-adapter/internal/inventory/adapters/postgres/store.go:435-442 | The unavailable lines determine the report, order included |
| CommitDecision.DecisionIgnoresOrder | services/inventory-adapter/internal/inventory/adapters/postgres/store.go:131-194 | Status, report and overflow depend on the bag of lines and the POS tables only |
| CommitDecision.SortedEntriesAreSorted | services/inventory-adapter/internal/inventory/adapters/postgres/store.go:435-442 | The sorted values of the map are exactly its values, in the order of the line identifiers |
| CommitTheorems.CommitConservesStock | services/inventory-adapter/internal/inventory/adapters/postgres/store.go:197-238 | Whatever a commit answers, each stock item changes by exactly what the new movements say |
| CommitTheorems.FirstCommitIsExact | services/inventory-adapter/internal/inventory/adapters/postgres/store.go:123-238 | A first commit answers COMMITTED exactly when everything is covered; each item then drops by its demand and stays at or above zero; otherwise nothing changes |
| CommitTheorems.DecisionIsAcceptable | services/ordering/internal/ordering/adapters/inventoryhttp/committer.go:122-155 | A result the store writes passes the adapter's and the ordering service's validation |
| CommitTheorems.AnsweredOperationReplays | services/inventory-adapter/internal/inventory/adapters/postgres/store.go:249-271 | Once answered, the same fingerprint gets the same result, another one is refused, and neither changes anything |
| CommitTheorems.CommitIgnoresLineOrder | services/inventory-adapter/internal/inventory/adapters/postgres/store.go:98-247 | The whole transaction, answer and tables, depends only on the set of lines |
| CommitTheorems.SalesMoveDemand | services/inventory-adapter/internal/inventory/adapters/postgres/store.go:211-237 | The sale movements of a command take exactly its summed demand out of every item |
| CommitMeaning.RoundingIsLeastCover | services/inventory-adapter/internal/inventory/adapters/postgres/store.go:311 | A component row draws the least whole number of the component that covers the recipe's thousandths times the quantity |
| CommitMeaning.LineTakes | services/inventory-adapter/internal/inventory/adapters/postgres/store.go:136-157 | What the decision counts for a line is what the line takes: nothing if the product is missing, inactive or untracked; its quantity of itself; or for each component row of a composite the least whole number that covers it |
| CommitMeaning.DemandIsTotal | services/inventory-adapter/internal/inventory/adapters/postgres/store.go:131-157 | The demand for an item is the sum over the lines of what each takes of it |
| CommitMeaning.CommitsExactlyWhatCanBeTaken | services/inventory-adapter/internal/inventory/adapters/postgres/store.go:123-194 | A first commit is COMMITTED if and only if every product is active and, if a tracked composite, has components, and every item drawn from is active, tracked, no composite and has all in stock that the order takes of it |
| CommitMeaning.StockDropsByWhatIsTaken | services/inventory-adapter/internal/inventory/adapters/postgres/store.go:197-238 | A COMMITTED first commit lowers each item's stock by exactly what the order takes of it and changes no other column; the result carries the drawn event, the clock and the request's operation and order; the receipt carries request and result |
| CommitMeaning.SalesAreRecorded | services/inventory-adapter/internal/inventory/adapters/postgres/store.go:209-237 | One sale per item drawn from, in the order of the items, of exactly what was taken, with the request's order and operation and the result's time |
| CommitMeaning.ReportNamesTheShortLines | services/inventory-adapter/internal/inventory/adapters/postgres/store.go:425-442 | The report lists exactly the short lines, once, by line identifier, with the requested quantity, and with the stock of a simple item or nothing as available |
| CommitMeaning.RefusedExactlyWhen | services/inventory-adapter/internal/inventory/adapters/postgres/store.go:309-334 | A first call gets no answer exactly when a component row needs more than 32 bits or a receipt has one of its event identifiers, and then changes nothing |
| CommitMeaning.CommitsKeepEventsDistinct | services/inventory-adapter/internal/inventory/adapters/postgres/store.go:336-356 | Whoever sends commits, no two receipts ever share a request or result event |
| CommitMeaning.CommandIsTakenExactlyWhen | services/inventory-adapter/internal/inventory/domain/commit.go:62-95 | The exact fields, counts and ranges of a command the adapter takes |
| CommitMeaning.ReplyIsTakenExactlyWhen | services/ordering/internal/ordering/adapters/inventoryhttp/committer.go:122-155 | The exact replies the ordering service takes: same schema, operation and order, items exactly if unavailable, and only requested lines, word for word, none twice |
| CommitMeaning.ResultIsReplayedExactlyWhen | services/inventory-adapter/internal/inventory/adapters/postgres/store.go:249-271 | A stored result is replayed exactly if it is complete and consistent, and nothing changes |
| InventoryStore.Store.CommitOnce | services/inventory-adapter/internal/inventory/adapters/postgres/store.go:98-247 | The transaction with its four loops and map iterations in any order equals the declarative commit: answer, stock, movements and receipts, with every error path leaving the tables as they were |
| InventoryStore.LoadCompositeDemand | services/inventory-adapter/internal/inventory/adapters/postgres/store.go:309-334 | Each component row is rounded up on its own and rows of one component add up; overflow exactly when a rounded quantity exceeds 32 bits |
| InventoryStore.ExpandLines | services/inventory-adapter/internal/inventory/adapters/postgres/store.go:131-158 | The demand table holds, per stock item, the summed demand and the dependent lines; unsellable lines are marked |
| InventoryStore.ExpandLine | services/inventory-adapter/internal/inventory/adapters/postgres/store.go:131-157 | One line adds exactly its own demand, or is marked unsellable, or overflows |
| InventoryStore.AddComponents | services/inventory-adapter/internal/inventory/adapters/postgres/store.go:154-157 | A line's components add up in the demand table whatever order the map yields them in |
| InventoryStore.IndexLines | services/inventory-adapter/internal/inventory/adapters/postgres/store.go:169-176 | Every line is found under its identifier, and missing or inactive products stay marked |
| InventoryStore.MarkShort | services/inventory-adapter/internal/inventory/adapters/postgres/store.go:177-195 | Exactly the items that do not cover their demand are short, and their dependents are marked |
| InventoryStore.MarkDependents | services/inventory-adapter/internal/inventory/adapters/postgres/store.go:187-194 | Marking one item's dependents overwrites earlier entries with the same value, so the order does not matter |
| InventoryStore.CheckStock | services/inventory-adapter/internal/inventory/adapters/postgres/store.go:160-195 | The marked lines sorted are the report, and there are none exactly when nothing is rejected |
| InventoryStore.DeductAll | services/inventory-adapter/internal/inventory/adapters/postgres/store.go:209-237 | The guarded update never misses; each item drops by its demand and gets one movement |
| InventoryStore.Deduct | services/inventory-adapter/internal/inventory/adapters/postgres/store.go:209-237 | Stock and movements after the deduction are those of the declarative commit |
| InventoryStore.ValidateResult | services/inventory-adapter/internal/inventory/domain/commit.go:124-153 | Accepts exactly the valid results |
| CommitDomain.ValidateCommand | services/inventory-adapter/internal/inventory/domain/commit.go:62-95 | Accepts exactly the valid commands |
| CommitDomain.ValidateLines | services/inventory-adapter/internal/inventory/domain/commit.go:74-94 | Accepts exactly one to a hundred good lines with distinct lines and distinct products |
| CommitDomain.ValidateReply | services/ordering/internal/ordering/adapters/inventoryhttp/committer.go:122-155 | Accepts exactly the replies that answer this request and repeat its lines, each at most once |
| CommitDomain.IndexRequest | services/ordering/internal/ordering/adapters/inventoryhttp/committer.go:134-137 | Every requested line is found under its identifier |
| CommitDomain.CheckItems | services/ordering/internal/ordering/adapters/inventoryhttp/committer.go:141-151 | Accepts exactly items that repeat a requested line, each line once |
| Canonical.Fingerprint | services/inventory-adapter/internal/inventory/domain/commit.go:97-122 | Succeeds exactly for valid commands and writes the canonical string of the sorted lines |
| Canonical.FingerprintIdentifiesCommand | services/inventory-adapter/internal/inventory/domain/commit.go:97-122 | Two valid commands have the same canonical string if and only if they agree on every field, the instant and the set of lines |
| Text.UuidTextOrder | services/inventory-adapter/internal/inventory/domain/commit.go:102-105 | Sorting by UUID text (section 4 of RFC 9562) is sorting by value |
| Text.UuidReadsBack | services/inventory-adapter/internal/inventory/domain/commit.go:107-116 | A UUID is read back from its text |
| Timestamp.TimestampIsInjective | services/inventory-adapter/internal/inventory/domain/commit.go:115 | Two instants with the same timestamp text (section 5.6 of RFC 3339, nanoseconds trimmed) are equal |
| Timestamp.DateFromReadsBack | services/inventory-adapter/internal/inventory/domain/commit.go:115 | A calendar date is read back to its day number |
| TextMeaning.UuidIsWellFormed | services/inventory-adapter/internal/inventory/domain/commit.go:105-114 | Thirty-six characters with hyphens in the four places of RFC 9562 and lower-case hexadecimal digits elsewhere |
| TextMeaning.TimestampReads | services/inventory-adapter/internal/inventory/domain/commit.go:105-114 | A timestamp is the Gregorian date and UTC clock of its instant, to the nanosecond, in the form of RFC 3339 |
| Canonical.CanonicalTextReads | services/inventory-adapter/internal/inventory/domain/commit.go:97-122 | The canonical text reads as the five fields of the command and one field per line, by line identifier, of identifier, product and quantity |
| OrderingStore.Store.FindCheckout | services/ordering/internal/ordering/adapters/postgres/store.go:31-47 | Finds the order of a checkout and compares fingerprint and owner |
| OrderingStore.Store.InsertOrder | services/ordering/internal/ordering/adapters/postgres/store.go:49-119 | Order, operation, outbox row and audit appear together or not at all, with the outcome that tells the cases apart |
| OrderingStore.Store.InsertLines | services/ordering/internal/ordering/adapters/postgres/store.go:67-82 | Refuses exactly when a line identifier is taken; otherwise builds the request's items in order |
| OrderingStore.Store.PlaceOrder | services/ordering/internal/ordering/adapters/postgres/store.go:24-119 | Without interleaving: lookup, then insert, with exactly the answer and the tables of the specified call |
| OrderingStore.PlaceIsExact | services/ordering/internal/ordering/adapters/postgres/store.go:24-119 | A new order is reported exactly when the checkout was unused and the insert went through, an error exactly when the checkout was unused and it did not; a placed order has the draft's checkout, fingerprint and customer; every other answer leaves all tables as they were |
| OrderingStore.Store.ClaimInventoryWork | services/ordering/internal/ordering/adapters/postgres/store.go:325-389 | Claims due unlocked rows only, the oldest first, all of them if they fit the batch, one new token and attempt each |
| OrderingStore.Store.UpdateClaimed | services/ordering/internal/ordering/adapters/postgres/store.go:342-349 | The claimed rows and the returned work are those of claiming one after the other |
| OrderingStore.SelectOldest | services/ordering/internal/ordering/adapters/postgres/store.go:332-341 | Selects up to a batch of candidates such that none left out is older than one taken |
| OrderingStore.PickOldest | services/ordering/internal/ordering/adapters/postgres/store.go:338 | Picks a candidate no other precedes |
| OrderingStore.ClaimAllTouches | services/ordering/internal/ordering/adapters/postgres/store.go:342-349 | A batch claim changes each claimed row once and no other row |
| OrderingStore.Store.ApplyInventoryResult | services/ordering/internal/ordering/adapters/postgres/store.go:391-516 | All branches in the source's order; the five tables change together or not at all |
| OrderingStore.Store.RetryInventoryWork | services/ordering/internal/ordering/adapters/postgres/store.go:518-537 | Releases exactly the row held by the claim and says whether there was one |
| OrderingStore.Store.AdvanceFulfillment | services/ordering/internal/ordering/adapters/postgres/store.go:257-323 | Moves a confirmed order one legal step, bumps the version and writes one audit, or changes nothing |
| OrderingMeaning.OldestRowsFirst | services/ordering/internal/ordering/adapters/postgres/store.go:331-341 | A claim takes due rows only, each once, at most a batch; a due row is left out only by a full batch whose every row was due no later, and on a tie occurred no later |
| OrderingMeaning.LeaseIsExclusive | services/ordering/internal/ordering/adapters/postgres/store.go:331-352 | A claimed row can be claimed again exactly from the end of its lease on; the worker gets its request, the new token and the attempt's number; no other row changes |
| OrderingMeaning.ReleasedRowsWait | services/ordering/internal/ordering/adapters/postgres/store.go:518-537 | A release unlocks exactly the row locked by the claim, which can be claimed exactly from the given time on and keeps the error code |
| OrderingMeaning.NewOrderIsRecorded | services/ordering/internal/ordering/adapters/postgres/store.go:51-119 | A new order leaves the order as drafted, its pending operation, an outbox row that can be claimed exactly from the order's time on and carries one item per line with product and quantity, and one audit record; no other row changes |
| OrderingMeaning.KnownCheckoutIsCompared | services/ordering/internal/ordering/adapters/postgres/store.go:31-43 | A known checkout is answered with its order exactly if fingerprint and customer agree, with a conflict otherwise, and nothing is written |
| OrderingMeaning.PlacingKeepsKeysDistinct | services/ordering/internal/ordering/adapters/postgres/store.go:51-119 | Whatever drafts are presented, no two orders share a checkout, no two outbox rows an event, no two lines an identifier |
| OrderingMeaning.ApplyMovesTogether | services/ordering/internal/ordering/adapters/postgres/store.go:397-516 | The exact condition under which a result is applied, the exact rows of all five tables after it, and no change otherwise |
| OrderingMeaning.SecondResultIsCompared | services/ordering/internal/ordering/adapters/postgres/store.go:427-440 | After an applied result another one is a repetition exactly if status, event and report agree, and a conflict otherwise; nothing changes |
| OrderingMeaning.AdvanceIsOneStep | services/ordering/internal/ordering/adapters/postgres/store.go:257-323 | A fulfillment moves one rank up, or repeats its present status except the first; only the move changes status, version, audit and the start of the delivery, which is kept |
| Backoff.RetryDelay | services/ordering/internal/ordering/application/worker.go:109-124 | The 64-bit loop never overflows and returns min(max, base times two to the attempt minus one); a round starts only while the doubled base is below the cap |
| Backoff.DelayIsMonotone | services/ordering/internal/ordering/application/worker.go:109-124 | A later attempt never waits less, and every delay lies between base and cap |
| Backoff.DelaysDouble | services/ordering/internal/ordering/application/worker.go:109-124 | The first delay is the base and each later one twice the one before, up to the cap |
| Backoff.DefaultDelays | services/ordering/internal/ordering/application/worker.go:109-124 | With the default configuration the delays reach the cap of a minute at the seventh attempt |
| Worker.Worker.ProcessOnce | services/ordering/internal/ordering/application/worker.go:49-76 | Is a run of protocol steps under every fault; claims the right batch; leaves every claimed row published or due within the lease or the longest delay; touches no other row; and, if the ordering store does not fail, publishes every row whose exchange goes well and whose order need not be refused |
| Worker.Worker.Run | services/ordering/internal/ordering/application/worker.go:91-107 | Over any number of ticks a run of protocol steps; under favourable conditions each tick takes a full batch off the backlog or all of it |
| Worker.Worker.Serve | services/inventory-adapter/internal/inventory/application/service.go:42-58 | The adapter's service equals its specification: validate, fingerprint, commit, check the answer |
| Worker.Worker.Exchange | services/ordering/internal/ordering/adapters/inventoryhttp/committer.go:46-88 | Under each fault the call and the reply the worker sees are those of the protocol |
| Worker.Worker.ApplyResult | services/ordering/internal/ordering/application/worker.go:65-67 | A result for a current claim is always applied |
| Worker.Worker.Reschedule | services/ordering/internal/ordering/application/worker.go:57-63 | Without a result a current claim is always released for the retry delay |
| Worker.Worker.Handle | services/ordering/internal/ordering/application/worker.go:55-67 | One turn of the loop is the specified turn and fails exactly when the store fails |
| Worker.Worker.ClaimBatch | services/ordering/internal/ordering/application/worker.go:50-54 | The claim is a sequence of claim steps, and every piece of work is a current claim |
| Worker.Worker.HandleBatch | services/ordering/internal/ordering/application/worker.go:55-75 | Turn after turn, each row is settled and the rest of the batch stays current |
| Worker.Worker.Tick | services/ordering/internal/ordering/application/worker.go:97-105 | One favourable tick takes a full batch off the backlog and leaves favourable conditions |
| Worker.RoundDrains | services/ordering/internal/ordering/application/worker.go:49-76 | A favourable round publishes min(batch, backlog) rows |
| Worker.LeftIsDifference | services/ordering/internal/ordering/application/worker.go:91-107 | A backlog of n rows is empty after k rounds exactly when k batches hold it |
| Worker.TurnBoundsDelay | services/ordering/internal/ordering/application/worker.go:55-67 | Whatever goes wrong in a turn, its row is published or due again within the lease or the longest delay |
| Worker.ClaimsAreSteps | services/ordering/internal/ordering/adapters/postgres/store.go:331-349 | A batch claim is as many claim steps of the protocol, each enabled |
| WorkerSteps.TurnPublishes | services/ordering/internal/ordering/application/worker.go:55-67 | Without a fault a current claim of an order that need not be refused ends published |
| WorkerSteps.TurnReleases | services/ordering/internal/ordering/application/worker.go:55-67 | Unless the store fails, a turn publishes its row, or unlocks it, makes it due after the delay of its attempt, and leaves the code of what went wrong |
| WorkerSteps.TurnIsSteps | services/ordering/internal/ordering/application/worker.go:55-67 | A turn is a stretch of protocol steps, whatever goes wrong in it |
| WorkerSteps.TurnTouches | services/ordering/internal/ordering/application/worker.go:55-67 | A turn touches no other row, no claim and no POS column but stock |
| Checkout.Service.PlaceOrder | services/ordering/internal/ordering/application/service.go:48-151 | The call on the service and store objects has exactly the outcome and leaves exactly the tables of the specified call, for every cart, catalog and store |
| Checkout.CallIsExact | services/ordering/internal/ordering/application/service.go:48-151 | A call reaches the store exactly when the cart is valid, matches the catalog and its total fits 64 bits; its draft is then a request the adapter accepts and its subtotal the mathematical total; a refused call changes nothing, and a valid cart is refused only because it changed or costs too much |
| Checkout.Prepare | services/ordering/internal/ordering/application/service.go:48-145 | Validation, total, identifiers and fingerprint give the refusal of the first failing check, or the draft of the cart's set of lines and its exact subtotal |
| Checkout.TotalIsExact | services/ordering/internal/ordering/application/service.go:84-100 | In the order of the lines, the total is refused exactly for a line that does not match or a sum past 64 bits, and is the mathematical one otherwise |
| Checkout.IndexCart | services/ordering/internal/ordering/application/service.go:59-73 | Accepts exactly valid lines, indexes them and sorts their products |
| Checkout.AddUp | services/ordering/internal/ordering/application/service.go:84-100 | No operation leaves 64 bits; the loop stops with the specified refusal or the specified total; for matching carts the guards stop exactly when the mathematical total does not fit |
| Checkout.DivisionGuardIsExact | services/ordering/internal/ordering/application/service.go:92-94 | The guard by division is the exact overflow test of the product |
| Checkout.CheckoutFingerprint | services/ordering/internal/ordering/application/service.go:153-187 | Builds the payload of the sorted lines |
| Checkout.BuildPayload | services/ordering/internal/ordering/application/service.go:175-181 | One payload line per sorted cart line, in order |
| Checkout.PayloadIdentifiesCart | services/ordering/internal/ordering/application/service.go:153-187 | Two valid carts have the same payload if and only if customer, address, notes and set of lines agree |
| Checkout.TotalsAgree | services/ordering/internal/ordering/application/service.go:115-129 | The subtotal is the sum of the order's line totals and of the cart's values in any order |
| Checkout.DraftIgnoresLineOrder | services/ordering/internal/ordering/application/service.go:59-145 | A shuffled cart gives the same draft and the same value |
| Checkout.DraftIsValid | services/ordering/internal/ordering/application/service.go:102-145 | Every draft the service builds is a request the adapter accepts |
| Checkout.BuildLines | services/ordering/internal/ordering/application/service.go:115-129 | One order line per sorted cart line, with its identifier and total |
| Checkout.SortCart | services/ordering/internal/ordering/application/service.go:73 | The sorted lines are the canonical ones |
| Checkout.ReuseReturnsTheOrderWhileTheCartMatches | contracts/README.md:31 | With an order of the same checkout, customer and cart in the store, the call returns that order as a replay if and only if every line still matches the catalog, and otherwise refuses the cart as changed; no table changes either way |
| Checkout.PriceChangeRefusesReuse | contracts/README.md:31 | A concrete checkout is placed as order 11, given order 11 again when repeated, and refused as changed when repeated after its price changed: reuse of a checkout identifier does not always return the order |
| Checkout.OneCheckoutOneCart | contracts/README.md:31 | Two callers given an order for one checkout asked for the same customer, address, notes and lines, and got the same order |
| CheckoutMeaning.CartIsPlacedExactlyWhen | services/ordering/internal/ordering/application/service.go:48-100 | A cart gets to the store if and only if it has 1 to 100 different products in quantities of 1 to 100, an address of 1 to 500 and notes of up to 500 characters, all products are offered under a name at the prices seen, and price times quantity adds up to no more than 64 bits; the refusal says which part failed |
| CheckoutMeaning.PlacedOrderIsTheCart | services/ordering/internal/ordering/application/service.go:102-145 | A new order has one line for each cart line with its product, quantity, unit price and their product, the supplied identifiers and time, and the cart's exact worth; its outbox row asks for exactly the cart's products and quantities |
| SessionTheorems.FamiliesAreChains | services/ordering/internal/identity/adapters/postgres/store.go:106-182 | In every reachable state each family is one chain of one user without repetition, each session the parent of the next and replaced by it, exactly those with a successor consumed, and those revoked |
| SessionTheorems.OneLiveSessionPerFamily | services/ordering/internal/identity/adapters/postgres/store.go:167-174 | Consumed means replaced, replaced-by and parent are inverse, and at most one session of a family is live |
| SessionTheorems.ReuseKillsTheFamily | services/ordering/internal/identity/adapters/postgres/store.go:141-152 | Once a consumed token is presented again, no session of its family ever opens anything or is rotated, in any later state |
| SessionTheorems.RotationIsExact | services/ordering/internal/identity/adapters/postgres/store.go:106-182 | A reachable rotation succeeds exactly for a live unexpired session and free identifiers, never fails on the account, and hands the family over; the new access token opens exactly until its expiry and the new refresh token rotates exactly until its own, while the old ones are spent |
| SessionTheorems.LiveSessionsHaveEligibleOwners | services/ordering/internal/identity/adapters/postgres/store.go:204-230 | In every reachable state a live session belongs to an active user who is not an unverified cashier |
| SessionTheorems.NothingIsRevived | services/ordering/internal/identity/adapters/postgres/cashiers.go:101-138 | Revocations, consumptions and uses of an intent are for ever; restoring an account revives no session |
| SessionTheorems.AccountActionsEndAllSessions | services/ordering/internal/identity/adapters/postgres/cashiers.go:224-233 | After a disable, a reset or the verification of an existing cashier no session of the user is live |
| SessionTheorems.EndedFamiliesStayDead | services/ordering/internal/identity/adapters/postgres/cashiers.go:101-233 | A session ended by a logout of its family, a disable, a reset, a verification or a password change in another family: no session of its family opens anything or is rotated in any later state of the run, also after the account is restored |
| SessionTheorems.IntentsWorkOnce | services/ordering/internal/identity/adapters/postgres/store.go:531-543 | An OAuth intent logs in at most once |
| SessionTheorems.StatusKeepsInv | services/ordering/internal/identity/adapters/postgres/cashiers.go:101-138 | Restoring a cashier keeps every session's owner eligible, because a disabled cashier had no live session |
| SessionTheorems.RunKeepsInv | services/ordering/internal/identity/adapters/postgres/store.go:59-346 | Every identity transaction keeps chains, unique hashes and eligible owners |
| SessionMeaning.LoginOpensASession | services/ordering/internal/identity/adapters/postgres/store.go:59-104 | A login succeeds exactly for an active user who is no unverified cashier; from then on the access token identifies the user, with role and password flag, exactly until its expiry, and the refresh token rotates exactly until its own; nothing else changes |
| SessionMeaning.OAuthOpensASession | services/ordering/internal/identity/adapters/postgres/store.go:277-346 | An OAuth login needs a standing intent for its provider and uses it up; it logs in the subject's account or a new customer without a password, whose tokens work until their expiries; an owned email only uses the intent up; other failures change nothing |
| SessionMeaning.UnverifiedCashiersAreLockedOut | services/ordering/internal/identity/adapters/postgres/store.go:82-104 | No login, access token or refresh token gets into the account of an unverified cashier |
| SessionMeaning.ResetReplacesThePassword | services/ordering/internal/identity/adapters/postgres/cashiers.go:140-181 | A reset works exactly for a cashier with a password login; then only the new password counts, it must be changed, and no other login is touched |
| SessionMeaning.ChangeReplacesThePassword | services/ordering/internal/identity/adapters/postgres/cashiers.go:183-222 | A change works exactly for an active user presenting the password that counts; then only the new one counts |
| SessionMeaning.ResetPasswordIsTheOneToChange | services/ordering/internal/identity/adapters/postgres/cashiers.go:140-222 | After a reset the cashier can change the password by presenting the reset one, and no other |
| SessionMeaning.RegistrationAddsACustomer | services/ordering/internal/identity/adapters/postgres/registration.go:139-158 | A registration works exactly for an unowned email and free identifiers, and adds an active customer with the chosen password who can log in at once |
| SessionMeaning.VerificationOpensACashier | services/ordering/internal/identity/adapters/postgres/cashier_registration.go:147-190 | A verification adds a verified cashier or verifies the unverified one who owns the email, replacing the password, and fails for every other owner |
| SessionMeaning.StatusDecidesLogin | services/ordering/internal/identity/adapters/postgres/cashiers.go:101-138 | A disabled cashier is told so at every login and a restored one can log in again; only the status changes |
| SessionMeaning.DisablingDecidesLogin | services/ordering/internal/identity/adapters/postgres/store.go:478-509 | Disabling works for every account there is, changes only its status, and every login is then told so |
| SessionMeaning.RevocationsReachExactly | services/ordering/internal/identity/adapters/postgres/store.go:141-152 | A transaction ends exactly the live sessions it is meant to reach and keeps every other, for all kinds of transactions |
| SessionMeaning.RevocationsAreRecorded | services/ordering/internal/identity/adapters/postgres/store.go:184-202 | Whatever ends a session leaves its reason and a time not before the session's creation, and changes nothing else; a session already ended is not changed |
| Sessions.Store.CreateSession | services/ordering/internal/identity/adapters/postgres/store.go:59-80 | A login starts a family of its own for an active user, with every error case |
| Sessions.Store.InsertSession | services/ordering/internal/identity/adapters/postgres/store.go:204-230 | The insert keeps unverified cashiers and duplicate hashes out |
| Sessions.Store.AuthenticateAccess | services/ordering/internal/identity/adapters/postgres/store.go:82-104 | Answers with a principal, its role and password flag exactly when a live unexpired session with that hash opens and its owner is active |
| Sessions.Store.RotateRefresh | services/ordering/internal/identity/adapters/postgres/store.go:106-182 | Equals the specified rotation, branch order included |
| Sessions.Store.RotateFound | services/ordering/internal/identity/adapters/postgres/store.go:141-182 | The branches of a rotation once the session is found |
| Sessions.Store.RevokeFamily | services/ordering/internal/identity/adapters/postgres/store.go:184-202 | Revokes the family's live sessions and keeps earlier revocations |
| Sessions.Store.CompleteOAuthLogin | services/ordering/internal/identity/adapters/postgres/store.go:277-346 | Logs a known subject in, asks for a link when the email is owned, or creates the customer; errors roll everything back |
| Sessions.Store.DisableUser | services/ordering/internal/identity/adapters/postgres/store.go:478-509 | Disables and revokes all sessions together |
| Sessions.Store.SetCashierStatus | services/ordering/internal/identity/adapters/postgres/cashiers.go:101-138 | Changes a cashier's status, revoking sessions exactly on disabling |
| Sessions.Store.ResetCashierPassword | services/ordering/internal/identity/adapters/postgres/cashiers.go:140-181 | Replaces the password, requires a change and revokes all sessions together, or changes nothing |
| Sessions.Store.ChangeOwnPassword | services/ordering/internal/identity/adapters/postgres/cashiers.go:183-222 | Replaces the password only against the old one and revokes the other families |
| Sessions.Store.VerifyCashier | services/ordering/internal/identity/adapters/postgres/cashier_registration.go:147-190 | Creates a verified cashier, or verifies an old one with a new password and no live session |
| Sessions.Store.RegisterCustomer | services/ordering/internal/identity/adapters/postgres/registration.go:139-158 | Creates the customer and the login together, or reports the taken email |
| Catalog.Store.ReplaceSnapshot | services/ordering/internal/catalog/adapters/postgres/store.go:16-81 | Publishes completely or changes nothing, and succeeds exactly for valid, storable, distinct products |
| Catalog.Store.InsertListed | services/ordering/internal/catalog/adapters/postgres/store.go:32-52 | The insert loop stops exactly on an invalid, unstorable or repeated product |
| Catalog.LatestImage | services/ordering/internal/catalog/adapters/postgres/store.go:43 | The subquery yields the image of the product's latest row |
| Catalog.Store.Products | services/ordering/internal/catalog/adapters/postgres/store.go:83-122 | Reads the requested or current snapshot, or reports it expired exactly when it has no rows |
| Catalog.Store.ReadPage | services/ordering/internal/catalog/adapters/postgres/store.go:96-121 | The look-ahead query yields the first products after the cursor and a next cursor exactly when there are more |
| CatalogTheorems.PublicationIsExact | services/ordering/internal/catalog/adapters/postgres/store.go:16-81 | The new snapshot is the source set with the images the products had plus every other known product as unavailable; the one before is untouched; no other is kept |
| CatalogTheorems.RunKeepsValid | services/ordering/internal/catalog/adapters/postgres/store.go:53-74 | In every reachable state only the last two snapshots exist and the current one has every product |
| CatalogTheorems.ProductsAndImagesSurvive | services/ordering/internal/catalog/adapters/postgres/store.go:36-71 | A product is never lost, and its image survives every publication |
| CatalogTheorems.SnapshotLastsOnePublication | services/ordering/internal/catalog/adapters/postgres/store.go:72-74 | A snapshot is unchanged through one later publication and gone after the second |
| CatalogTheorems.PinnedWalkIsExact | services/ordering/internal/catalog/adapters/postgres/store.go:83-122 | A page walk pinned to a nonempty snapshot that overlaps at most one publication is never told the snapshot expired; it ends exactly when it has as many reads as the rows fill pages, and has then collected exactly the snapshot's rows in order |
| CatalogTheorems.TwoPublicationsExpire | services/ordering/internal/catalog/adapters/postgres/store.go:90-95 | After a second publication the pinned reader is told its snapshot is gone |
| CatalogMeaning.ReadsServeTheSnapshot | services/ordering/internal/catalog/adapters/postgres/store.go:83-122 | A read without a snapshot is of the current one; it is answered exactly when the snapshot has a product, with its revision, its next rows after the cursor, none left out, and a next cursor exactly when it goes on |
| CatalogMeaning.BrowsingCollectsTheSnapshot | services/ordering/internal/catalog/adapters/postgres/store.go:83-122 | A client that starts without a snapshot and goes on with the revision of its first page collects exactly the snapshot current at its first request, across at most one publication, and is never told it expired |
| CatalogMeaning.PublishedExactlyWhen | services/ordering/internal/catalog/domain/product.go:36-49 | Publishing succeeds exactly for distinct products with a title and a titled category, a non-negative price, a short enough description and a change time |
| CatalogSync.SourcePageOf | services/inventory-adapter/internal/inventory/adapters/postgres/catalog.go:11-79 | The page takes the identifiers after the cursor in order, skips none, and has a next cursor exactly when there are more |
| CatalogSync.AddPage | services/ordering/internal/catalog/application/service.go:38-47 | Adds a page in order and fails only on an invalid product |
| CatalogSync.CopySource | services/ordering/internal/catalog/application/service.go:28-56 | Ends whatever happens to the items between requests; never repeats a product or a cursor; misses no product that was there throughout; fails only on an invalid product |
| CatalogSync.CopyOfFixedTable | services/ordering/internal/catalog/application/service.go:28-56 | A source that stands still is copied exactly, in the order of its identifiers |
| CatalogSync.Service.Sync | services/ordering/internal/catalog/application/service.go:28-61 | Copies the source and publishes it, or leaves the store as it was |
| CatalogSync.FixedSourceIsPublished | services/ordering/internal/catalog/application/service.go:28-61 | The snapshot published from a fixed source is that table plus the products gone from it as unavailable |
| RegistrationTheorems.FivePerEmailAndHour | services/ordering/internal/identity/adapters/postgres/registration.go:182-206 | With a clock that does not go back at most five challenges go to one email in one clock hour, customers and cashiers together |
| RegistrationTheorems.ChallengesAreAmortised | services/ordering/internal/identity/adapters/postgres/registration.go:21-167 | The attempt count stays in 0..5; wrong codes counted for an email are at most five per challenge sent, and successes at most one per challenge sent |
| RegistrationTheorems.OneCodeVerifiesOnce | services/ordering/internal/identity/adapters/postgres/registration.go:105-167 | Between two successes for one email and flow in a run there is a newly sent challenge, so one issued code verifies at most one account |
| RegistrationTheorems.SuccessesRedeemChallenges | services/ordering/internal/identity/adapters/postgres/registration.go:105-167 | Every success in a run presents the code of the latest challenge sent for its email and flow, and that challenge had not succeeded before |
| RegistrationTheorems.OnlySuccessesAddAccounts | services/ordering/internal/identity/adapters/postgres/registration.go:105-167 | A challenge event changes the set of accounts only by succeeding, and then by at most the one new identifier |
| RegistrationTheorems.WrongAttemptsAreBounded | services/ordering/internal/identity/adapters/postgres/registration.go:105-137 | Over all emails and both flows counted wrong attempts are at most five times the challenges sent |
| RegistrationTheorems.VerificationNeedsTheCode | services/ordering/internal/identity/adapters/postgres/registration.go:105-167 | A verification succeeds only with the code of an open row with attempts left; then the email has an account and the row is spent |
| RegistrationMeaning.LimitsAreExact | services/ordering/internal/identity/adapters/postgres/registration.go:182-206 | A request passes exactly if the email has fewer than 5 and the address fewer than 100 in this clock hour, and then both and nothing else count one more |
| RegistrationMeaning.CustomerChallengeIsSent | services/ordering/internal/identity/adapters/postgres/registration.go:21-59 | The exact condition and the exact new row of a customer challenge; nothing is written otherwise |
| RegistrationMeaning.CashierChallengeIsSent | services/ordering/internal/identity/adapters/postgres/cashier_registration.go:15-54 | The exact condition and the exact new row of a cashier challenge; nothing is written otherwise |
| RegistrationMeaning.ChallengeIsSentAgain | services/ordering/internal/identity/adapters/postgres/registration.go:61-103 | A challenge is sent again exactly if alive, a minute old and within the limits, with the new code and all attempts |
| RegistrationMeaning.CustomerCodeVerifies | services/ordering/internal/identity/adapters/postgres/registration.go:105-167 | A customer's code verifies exactly if right, in time, unused, after fewer than five wrong ones, for an unowned email; the account then has the chosen password; a wrong code only counts |
| RegistrationMeaning.FreshCodeVerifies | services/ordering/internal/identity/adapters/postgres/registration.go:21-167 | The code of a fresh challenge makes the account until it expires, and no other code does |
| RegistrationMeaning.ResentCodeVerifies | services/ordering/internal/identity/adapters/postgres/registration.go:61-167 | After a challenge was sent again only the new code verifies |
| RegistrationMeaning.CashierCodeVerifies | services/ordering/internal/identity/adapters/postgres/cashier_registration.go:99-208 | A cashier's code verifies exactly if right, in time, unused, after fewer than five wrong ones, and the account can be made or verified; repeated, it is recognised and changes nothing |
| RegistrationMeaning.VerifiedRowNamesTheCashier | services/ordering/internal/identity/adapters/postgres/cashier_registration.go:147-208 | The row of a verified cashier names the account and says whether it is new |
| RegistrationMeaning.OnlyTheActorContinues | services/ordering/internal/identity/adapters/postgres/cashier_registration.go:56-124 | Only the actor who began a cashier registration can resend or verify it |
| RegistrationMeaning.CleaningDeletesWhatIsOver | services/ordering/internal/identity/adapters/postgres/registration.go:169-180 | The clean-up deletes exactly what has expired or was used before, and counts of hours that began over two hours ago |
| RegistrationMeaning.CleaningIsInvisible | services/ordering/internal/identity/adapters/postgres/registration.go:169-180 | No later verification or resend of a customer turns out differently because of a clean-up |
| RegistrationMeaning.CleaningForgetsRepetitions | services/ordering/internal/identity/adapters/postgres/registration.go:169-180 | For cashiers the only difference is that a repetition is no longer recognised once its row is deleted |
| Registration.RegistrationLimits | services/ordering/internal/identity/adapters/postgres/registration.go:182-206 | Counts email then address, and gives the transaction up exactly when a limit is passed |
| Registration.ResendRow | services/ordering/internal/identity/adapters/postgres/registration.go:71-103 | Closed rows, cooldown and limits in this order; otherwise code, expiry and attempts are renewed |
| Registration.Store.BeginRegistration | services/ordering/internal/identity/adapters/postgres/registration.go:21-59 | Counts, then stores or replaces the pending row, eligible exactly when the email has no account |
| Registration.Store.ResendRegistration | services/ordering/internal/identity/adapters/postgres/registration.go:61-103 | Finds the row by its identifier and resends |
| Registration.Store.VerifyRegistration | services/ordering/internal/identity/adapters/postgres/registration.go:105-167 | Finds the row by its identifier and checks the code |
| Registration.Store.CheckCustomer | services/ordering/internal/identity/adapters/postgres/registration.go:125-166 | Counts a wrong code, or creates the account and consumes the row together |
| Registration.Store.BeginCashierRegistration | services/ordering/internal/identity/adapters/postgres/cashier_registration.go:15-54 | Counts, refuses taken emails, then stores or replaces the pending row |
| Registration.Store.ResendCashierRegistration | services/ordering/internal/identity/adapters/postgres/cashier_registration.go:56-97 | Resends for the cashier registration of the same actor only |
| Registration.Store.VerifyCashierRegistration | services/ordering/internal/identity/adapters/postgres/cashier_registration.go:99-208 | Checks the code for the registration of the same actor only |
| Registration.Store.CheckCashier | services/ordering/internal/identity/adapters/postgres/cashier_registration.go:124-208 | Replays a verified row, counts a wrong code, or verifies the account and consumes the row together |
| Registration.Store.DeleteExpiredRegistrations | services/ordering/internal/identity/adapters/postgres/registration.go:169-180 | Deletes expired and consumed rows and buckets older than two hours, and nothing else |

## Left out

- HTTP, JSON, authentication of callers, configuration, logging, notifications and mail: values that cross a boundary are taken to arrive as they were sent or not at all; encodings and SHA-256 are taken to be injective.
- PostgreSQL internals: isolation, locks, SKIP LOCKED, advisory locks, serialization failures and microsecond rounding of timestamps; a transaction is one atomic step or none.
- `Sessions.Store.RevokeFamily`: takes no user lock in the source; it is one atomic step here.
- Free-form identifiers: trimming of addresses, notes and product identifiers, and product identifiers that are no UUID texts, which match no catalog product.
- Products' names and addresses inside orders, delivery fees (always zero), and the read marks of cashiers.
- Order listings, cashier listings, audit views and health checks: queries without a hard property. Audit rows are kept for orders only, to count them.
- The adapter's second read of the items under lock: in a serializable transaction both reads see the same rows. The lookup tables of items are the POS tables themselves.
- Identifiers of stock movements, their notes and their actor; the stock column is an unbounded integer.
- The source's `addDemand` updates the demand record in place; the model replaces the map entry.
- The source's place-order call runs lookup and insert in one call; interleavings are in the protocol, and the method without interleaving is `OrderingStore.Store.PlaceOrder`.
- Error texts and the classification of HTTP statuses into error codes, except the three codes the worker's faults produce.
- The catalog's `available` expression over POS items: it is an input here. It is not equivalent to the commit decision, for example for components that do not track stock, so nothing is claimed between the two.
- That a product's available quantity in a report is below the requested one: shared demand can reject a line whose own stock would do.
- Edits of product images happen outside the service and are events of the catalog's runs.
- OAuth linking, the bootstrap and recovery of the admin account, password verification and rehashing: single steps on one row.
- Creation times of OAuth intents, which only raise their consumption time.
- The advisory lock and the separate deletion statements of the clean-up are one step.
