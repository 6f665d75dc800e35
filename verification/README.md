# AuraPro: sales, events, metrics, administrators, variants and forecasts

A Dafny 4.11 model of the parts of AuraPro that must survive concurrency, crashes and redelivery.
`dafny verify dfyconfig.toml` checks all of it.

## What is modelled

**The sale transaction** (`Model`, `Sales`, `Effects`, `Transactions`, `Serializability`, `Progress`, `Services`,
`Treasury`, `Outcomes`).
A database is the rows of one tenant. `Sales` says declaratively when a sale request is accepted and what the
database is afterwards, without reference to the order of its lines. `Services.TenantStore` has the service calls
as methods over mutable tables, with their loops, each proved to do what `Sales` and `Treasury.Apply` say.
`Transactions` is the concurrent machine: a READ COMMITTED database, a lock table, a private write buffer per
transaction, unlocked first reads, and an abort possible at any step. `Serializability` proves that the committed
transactions of any interleaving amount to the same effects performed one after another; everything `Effects`
proves of effects therefore holds of every interleaving, and `Treasury` adds what needs whole calls to be atomic.
`Progress` is the counterpart: every accepted call has a run that commits it. `Outcomes` says on the rows and columns
themselves when each call is accepted, what it writes, with which error it is refused, and where the money in a till
comes from.

**The event pipeline** (`Expiring`, `Pipeline`, `Counting`, `Publishing`, `RollingWindow`, `Metrics`, `EndToEnd`). A step machine
from committed outbox rows over the polling worker, an append-only topic log and the deduplicating consumer to the
expiring daily hashes. A send may fail after it was appended, a batch may roll back after sending and may pick pending
rows in any order, the consumer may crash before, between and after the lines of an event and may be handed old messages. `Expiring` is a
hash whose lifetime is refreshed on every write. `Publishing.OutboxTable` and `Metrics.Redis` are the same operations
as methods with the source's loops: a batch is proved to be a run of that machine, and handling a message a run that
does to the machine's dedup keys and daily hashes exactly what the method does to its own. `RollingWindow` is the hash
of minute buckets; it is not part of the machine.

**Smaller protocols** (`Admins`, `Combinations`, `Variants`, `Forecast`, `Migration`). The tenant lock that keeps an
administrator; the variant generator and the store that keeps attribute combinations apart; the two stock-out scans
and the daily series; the migration that numbers existing sales.

Conventions. Money is in integer cents, forecasts are exact numbers, times are integers in microseconds.
Identifiers of tables that only grow are positions, so an unknown identifier is a position past the end. A database's
`outbox` holds the rows its tenant wrote; the pipeline's `rows` are the one table all tenants share. One clock
reading stands for every timestamp of a call. `Sale.fromNote`, `World.history` and the pipeline's `first`, `taken`,
`broken`, `added` and `entries` are history, recorded to state properties and never read by a step; `order_note_id` of the
request is the only source of `fromNote`. Postgres reporting a deadlock or a dropped connection is an abort.

## What the code does that its documentation does not say

* The consumer's docstring promises that redelivery does not duplicate counts. Duplicates are indeed impossible
  within a day of the first delivery (`Counting.AddedAtMostOnce`); after that the dedup key is gone and a redelivered
  event is counted again (`Counting.RetakenExactlyWhenLate`, `Counting.LateRedeliveryCountsTwice`).
* The same guard loses lines: after a crash between `SET NX` and the last line the rest of the event is never added. And
  the 180 days of daily history are a lifetime of the whole hash, not of a day: a product that is not sold for that long
  loses all its days at once (`Counting.IdleProductForgotten`). A tenant's drained counters equal its committed sales
  exactly when neither happened to any of its events and products (`Counting.DrainedTotals`).
* Cancelling an order note reads it without a lock. A sale that commits in between leaves a CANCELLED note with a
  `sale_id` (`Serializability.LateCancelRun`). At the end of any run status and link agree on every note exactly when no
  committed cancel hit a note that was linked by then (`Serializability.StatusAgreesExactly`).
* Outbox rows without a topic stay PENDING and keep their place in the batch. A row behind a hundred of them is never
  published (`Publishing.DrainsExactlyWhenUnblocked`).
* The last-administrator check looks at a role read before the lock. A promotion that lands between the unlocked read
  and the commit of a deletion or demotion of the same user can leave a tenant without administrators; nothing else
  can (`Admins.StrandsExactlyWhenStale`, `Admins.RacingPromotionStrands`).
* The alert is meant to cross a stored forecast with the stock of the moment. It answers something else than the batch
  would for that stock in exactly two cases (`Forecast.AlertOnChangedStock`): on a short history, when there is no stock
  now; on a long enough one, when the forecast was made with no stock left and the model foresees selling all there is
  now. Such a forecast stores an empty series, so the alert misses that stock-out (`Forecast.RestockedGetsNoAlert`).
* The form lets the same attribute be picked in two rows; the later axis then overwrites the earlier one. Combinations
  repeat, and bulk creation refuses the lot as a whole, exactly when an overwritten axis has more than one value
  (`Combinations.GeneratorIs`, `Variants.PickedRowsFit`); with a single value the earlier axis just disappears.

## Model

| member | source | states |
|---|---|---|
| Model.UnitPrice | backend/app/shared/pricing.py:21-28 | A customer without a type or with a retail type pays the list price; one with a wholesale type pays the wholesale price of a product that has one. |
| Outcomes.PricesOf | backend/app/shared/pricing.py:21-28 | Every priced line keeps product, variant and quantity and carries the price that the customer's type and the product's columns call for. |
| Outcomes.RetailIgnoresWholesale | backend/app/shared/pricing.py:21-28 | What a customer who is not a wholesale one pays for a document depends on the list prices alone. |
| Outcomes.TotalsAdd | backend/app/modules/sales/services.py:178 | Totals are the sums of price times quantity over the lines. |
| Outcomes.LinesFitExactly | backend/app/modules/sales/services.py:127-158 | Lines fit if and only if each is an active product with, if named, a variant of it, and the request as a whole leaves no stock below zero. |
| Outcomes.CreditRefusedExactly | backend/app/modules/treasury/services.py:104-131 | A bookable request is refused if and only if booking it would put a debit on the ledger that takes a customer with a limit above it; other payment methods are never refused for credit. |
| Outcomes.AcceptedExactly | backend/app/modules/sales/services.py:95-178 | The whole rule of acceptance on the rows: customer, note, lines, stock, and the limit for sales on account. |
| Outcomes.LineErrorsSay | backend/app/modules/sales/services.py:127-158 | Each error of a line means exactly what it says, in the order of the checks, stock being what the lines before have left. |
| Outcomes.SaleTakesStock | backend/app/modules/sales/services.py:86-92 | A sale lowers every product's stock by its lines without a variant and every variant's by the lines that name it, and changes no other column. |
| Outcomes.SaleWrites | backend/app/modules/sales/services.py:183-229 | The sale, debit, income and note rows an accepted sale writes, column by column; all other tables stay. |
| Outcomes.SaleAnnounces | backend/app/modules/sales/services.py:214-227 | The event's type, tenant, time, and product and quantity of every line in order. |
| Outcomes.RefusedWritesNothing | backend/app/modules/sales/services.py:206-231 | The database stays the same if and only if the request is refused. |
| Outcomes.QuoteWrites | backend/app/modules/quotes/services.py:58-108 | Accepted if and only if customer, products and variants resolve, and then exactly one quote of that customer with its lines, total and the next number. |
| Outcomes.NoteWrites | backend/app/modules/order_notes/services.py:67-114 | The same for an order note, pending and without a link. |
| Outcomes.DocumentErrorsSay | backend/app/modules/quotes/services.py:58-73 | Each error of a document's line means exactly what it says. |
| Outcomes.CancelWrites | backend/app/modules/order_notes/services.py:144-161 | Only the status of one pending note changes. |
| Outcomes.ProductWrites | backend/app/modules/products/services.py:157-170 | A PATCH sets the columns it sends on one product and leaves the others. |
| Outcomes.VariantStockWrites | backend/app/modules/products/services.py:387-407 | Sets the stock of one variant of the named product, or nothing. |
| Outcomes.PaymentWrites | backend/app/modules/treasury/services.py:152-187 | A payment is a credit of its amount; in cash with a session open it is also income of that session, and in no other case does it touch the cash. |
| Outcomes.CashPaymentRaisesTill | backend/app/modules/treasury/services.py:173-184 | With a session open a cash payment raises what it should hold by the amount, another payment does not. |
| Outcomes.OpeningWrites | backend/app/modules/treasury/services.py:199-208 | A session starts with the amount counted and the clock's time, if and only if none is open. |
| Outcomes.MovementWrites | backend/app/modules/treasury/services.py:225-246 | A manual movement goes to the open session it names with its kind and amount. |
| Outcomes.ClosingWrites | backend/app/modules/treasury/services.py:268-287 | Closing records time, counted amount, and opening plus incomes less expenses. |
| Outcomes.TillMoneyExplained | backend/app/modules/treasury/services.py:134-246 | Over any calls a session's incomes without a sale are, one by one and in order, the cash payments and manual incomes made while it was open, its expenses the manual expenses. |
| Outcomes.SummaryIsTally | backend/app/modules/treasury/services.py:249-265 | Every row of the summary, whatever its payment method, counts and adds up exactly the sales of that method from opening to close or now. |
| Sales.LineOrderIrrelevant | backend/app/modules/sales/services.py:127-178 | Reordering the lines of a request, also when they repeat a product, changes neither acceptance nor the total nor anything else it leaves behind but the order of the lines in the sale and its event. |
| Sales.DemandOfPermutation | backend/app/modules/sales/services.py:127-158 | What a list of lines takes from a cell depends only on the multiset of lines. |
| Sales.TotalOfPermutation | backend/app/modules/sales/services.py:160-178 | The total depends only on the multiset of lines. |
| Sales.FaultRefuses | backend/app/modules/sales/services.py:127-158 | One faulty line, judged against the stock left by the lines before it, makes the whole request unacceptable. |
| Sales.TotalPositive | backend/app/modules/sales/services.py:178 | Any non-empty list of lines has a total above zero, as the CHECK constraints on sale and ledger amounts demand. |
| Services.TenantStore.CreateSale | backend/app/modules/sales/services.py:95-231 | Accepted exactly when note, summed demand and credit fit the database as a whole; then the database is the booked one; otherwise it is unchanged and the error is the first thing wrong. |
| Services.TenantStore.TakeLines | backend/app/modules/sales/services.py:127-178 | The line loop succeeds exactly when all lines are sellable and summed demand fits, and then prices, total, event lines and pending stock are those of the whole request; otherwise it names the first faulty line. |
| Services.TenantStore.DiscountStock | backend/app/modules/sales/services.py:86-92 | One discount turns the stock left by k lines into the stock left by k + 1. |
| Services.TenantStore.CheckNote | backend/app/modules/sales/services.py:109-121 | Refuses exactly the notes that do not exist, are not pending or belong to another customer, with the matching error. |
| Services.TenantStore.RecordInTreasury | backend/app/modules/sales/services.py:209-212 | An account sale adds one debit, a cash sale one income of the open session if there is one, any other method nothing. |
| Services.TenantStore.CreateQuote | backend/app/modules/quotes/services.py:44-108 | Accepted exactly when customer and lines resolve; adds one quote with the tenant's next number and the priced lines. |
| Services.TenantStore.PriceItems | backend/app/modules/quotes/services.py:58-86 | The pricing loop accepts exactly resolvable documents and yields their unit prices and total, with no stock or active check. |
| Services.TenantStore.CreateOrderNote | backend/app/modules/order_notes/services.py:53-114 | As for quotes, adding one pending note without a link. |
| Services.TenantStore.UpdateOrderNoteStatus | backend/app/modules/order_notes/services.py:144-161 | Only a pending note can be changed, never to INVOICED, with the matching error otherwise. |
| Services.SaleAndQuoteAgree | backend/app/shared/pricing.py:21-28 | Whatever can be sold can be quoted and noted, at the same unit prices and total. |
| Services.TenantStore.RecordCustomerPayment | backend/app/modules/treasury/services.py:152-187 | Adds one credit, and one income of the open session when paid in cash. |
| Services.TenantStore.OpenCashSession | backend/app/modules/treasury/services.py:199-208 | Succeeds exactly when no session is open. |
| Services.TenantStore.AddCashMovement | backend/app/modules/treasury/services.py:225-246 | Attaches a movement exactly to an existing open session. |
| Services.TenantStore.CloseCashSession | backend/app/modules/treasury/services.py:268-287 | Closes exactly an open session and stores opening plus income less expense over all its movements. |
| Services.TenantStore.UpdateProduct | backend/app/modules/products/services.py:157-170 | Writes exactly the columns sent, stock included. |
| Services.TenantStore.UpdateVariantStock | backend/app/modules/products/services.py:387-407 | Sets the stock of one existing variant of the named product and nothing else. |
| Effects.StockConserved | backend/app/modules/sales/services.py:127-158 | Over any history, what a cell holds plus what was sold from it is its initial value plus net manual adjustments, and it never goes below zero. |
| Effects.EffectKeepsNumbered | backend/app/modules/sales/services.py:183-200 | Every committed effect keeps the sale, quote and note numbers exactly 1..next-1, each once. |
| Effects.EffectKeepsNotesLinked | backend/app/modules/sales/services.py:202-204 | Links on notes and sales made from notes stay the same pairs; no effect removes or changes a link or makes a note pending again. |
| Effects.NoteSoldOnce | backend/app/modules/sales/services.py:109-121 | Two committed sales never come from the same note. |
| Effects.EffectKeepsLedger | backend/app/modules/treasury/services.py:104-131 | The debits are, one to one and in order, the debits the account sales call for. |
| Effects.EffectKeepsEvents | backend/app/modules/sales/services.py:214-229 | The sale events in the outbox are exactly the events of the committed sales, in order. |
| Effects.HistoryKeepsConsistent | backend/app/modules/sales/services.py:183-229 | All of these together hold after any history of effects. |
| Effects.HistoryAdvancesNotes | backend/app/modules/order_notes/services.py:144-161 | Between any two points of a history no note loses its link, changes it or becomes pending again. |
| Transactions.KnowledgeKept | backend/app/modules/sales/services.py:80-83 | What a transaction read of the rows it holds locked stays true whatever others commit. |
| Serializability.CommitIsEffect | backend/app/modules/sales/services.py:127-229 | The private buffer a transaction flushes on commit is exactly the declared effect on the database as it is then. |
| Serializability.StepKeepsInv | backend/app/modules/sales/services.py:95-231 | Every step of every transaction keeps the lock knowledge and the equality of the database with the replayed commits. |
| Serializability.CommitsAreSerial | backend/app/modules/sales/services.py:95-231 | After any interleaving with aborts the database is the one reached by performing the committed transactions one after another. |
| Serializability.InterleavingsConserveStock | backend/app/modules/products/services.py:157-170 | Stock conservation and non-negativity for every cell under every interleaving of sales, manual adjustments and aborts. |
| Serializability.InterleavingsKeepConsistent | backend/app/modules/sales/services.py:183-204 | Gapless numbers of sales, quotes and notes, one-to-one note links, ledger and events equal to the sales, under every interleaving. |
| Serializability.InterleavingsAdvanceNotes | backend/app/modules/order_notes/services.py:144-161 | With the cancel's read and write as separate unlocked steps a note still never changes or loses its link and never returns to PENDING. |
| Serializability.BalanceWithinLimit | backend/app/modules/treasury/services.py:104-131 | A customer who starts within it never exceeds the largest limit set for them during the run, which is the limit itself if it does not change, in any interleaving of sales, payments, limit changes and aborts. |
| Serializability.StatusAgreesUnlessLateCancel | backend/app/modules/order_notes/services.py:144-161 | INVOICED and the link keep agreeing after an effect if and only if it is not a cancel of a note already linked. |
| Serializability.StatusAgreesExactly | backend/app/modules/order_notes/services.py:144-161 | At the end of any interleaving status and link agree on every note if and only if none of the committed cancels hit a note linked by then. |
| Progress.AcceptedSaleCommits | backend/app/modules/sales/services.py:95-231 | Every accepted request, with variants, repeated products, a note, account credit or cash, has a run of the lock protocol that commits it and ends where the atomic call does. |
| Progress.PaymentCommits | backend/app/modules/treasury/services.py:152-187 | So has every payment by a known customer, asking for the open session exactly when it is in cash. |
| Progress.ProductPatchCommits | backend/app/modules/products/services.py:157-170 | So has every PATCH of an existing product. |
| Progress.VariantStockCommits | backend/app/modules/products/services.py:387-407 | So has every stock adjustment of a variant of the named product. |
| Progress.CancelCallCommits | backend/app/modules/order_notes/services.py:144-161 | So has every cancel of a pending note. |
| Progress.QuoteCommits | backend/app/modules/quotes/services.py:90-108 | So has every acceptable quote. |
| Progress.NoteCommits | backend/app/modules/order_notes/services.py:97-114 | So has every acceptable order note. |
| Serializability.AbortLeavesNothing | backend/app/modules/sales/services.py:206-208 | A transaction may abort at any point, and leaves the database, the other transactions and their locks as they were. |
| Serializability.LateCancelRun | backend/app/modules/order_notes/services.py:144-161 | A run in which an unlocked cancel overtaken by a sale leaves a CANCELLED note linked to that sale. |
| Treasury.TillsBalance | backend/app/modules/treasury/services.py:190-287 | After any calls at most one session is open, and every closed session's expected amount accounts for all movements it has. |
| Treasury.CashRowMatchesMovements | backend/app/modules/treasury/services.py:249-265 | The cash row of a session's summary, selected by time window, has the count and total of the session's sale movements, selected by session, whenever asked. |
| Treasury.InvoicedNoteHasItsSale | backend/app/modules/sales/services.py:202-204 | With calls atomic, INVOICED holds exactly when the link is set, and the linked sale was made from the note for the same customer. |
| Treasury.BalanceIsSalesLessPayments | backend/app/modules/treasury/services.py:52-60 | A balance is the customer's account sales less their payments. |
| Treasury.ListingMatchesBalances | backend/app/modules/treasury/services.py:85-101 | The grouped outer-join listing has every customer, movements or not, with the balance of the per-customer query. |
| Treasury.CallsKeepConsistent | backend/app/modules/treasury/services.py:104-187 | Any sequence of calls keeps stock, numbers, links, ledger and events consistent and status equal to link. |
| Pipeline.SelectedIsOldest | workers/crates/outbox-processor/src/main.rs:69-81 | When rows become visible in the order of their dates, the batch query picks at most a hundred different pending unlocked rows, in order, leaving out no earlier one. |
| Counting.AddedAtMostOnce | analytics-engine/app/consumer.py:31-51 | With redeliveries inside the dedup window, in every reachable state no line was added twice, no counter shows more than the units of the lines added, and a product's counters show exactly those if and only if its hash was never idle for 180 days. |
| Counting.DrainedTotals | analytics-engine/app/consumer.py:39-51 | Once everything is PROCESSED and consumed, each tenant's counters equal its committed sale lines if and only if no handling of its events was cut short and none of its products was ever idle for 180 days; all counters do if and only if that holds of all. |
| Counting.CutShortIsSkipped | analytics-engine/app/consumer.py:39-51 | Cut short before its last line, an event redelivered within the day is skipped and its offset committed; the lines that were left are never added. |
| Counting.IdleProductForgotten | analytics-engine/app/metrics/rolling_window.py:51-52 | From any state there is a time after which all counters of a product read zero, whatever was counted. |
| Counting.PublishedMatchesCommitted | workers/crates/outbox-processor/src/main.rs:90-139 | With any number of replicas every message comes from a committed row of its topic, every PROCESSED row has been published, no row is in two open batches. |
| Counting.RetakenExactlyWhenLate | analytics-engine/app/consumer.py:39-42 | An event taken before is taken again if and only if its delivery comes after its key expired. |
| Counting.LateRedeliveryCountsTwice | analytics-engine/app/metrics/redis_keys.py:19 | From any state in which an event was counted, a redelivery after a day counts its first line twice. |
| EndToEnd.SalesReachCounters | analytics-engine/app/consumer.py:31-81 | With any number of tenants in the outbox, after any history of a tenant's transactions and any timely draining run, the tenant's counter of every product and calendar day equals the units of its sales committed on that day if and only if no handling of its events was cut short and none of its products was ever idle for 180 days. |
| Pipeline.DayIs | analytics-engine/app/metrics/rolling_window.py:43 | A daily field holds exactly the instants from one midnight to the next. |
| Expiring.ReadsAllWhenNeverIdle | analytics-engine/app/metrics/redis_keys.py:16-17 | A hash whose lifetime is refreshed on every write reads like one that never expires, on every field, if and only if it was never left alone for its lifetime. |
| Expiring.ReadsAtMostAdded | analytics-engine/app/metrics/rolling_window.py:48-53 | No field ever reads more than was added to it. |
| EndToEnd.OutboxTotals | backend/app/shared/outbox_model.py:27-35 | The units the shared outbox announces for a tenant's product and day are those the tenant sold; rows of other types and tenants count for nothing. |
| Publishing.PublishedInOrder | workers/crates/outbox-processor/src/main.rs:69-139 | With one replica that picks oldest rows first, wherever a row is published every earlier mapped row was published before it: through breaks, ambiguous sends and rollbacks. |
| Publishing.OutboxTable.ProcessBatch | workers/crates/outbox-processor/src/main.rs:63-141 | What one batch appends, marks and returns for every pattern of send outcomes and commit. |
| Publishing.BatchPublishesWell | workers/crates/outbox-processor/src/main.rs:36-42 | Whatever the sends and the commit do, every message appended is of a picked sale or purchase-order row, on the topic of its type, in the order of the rows, none twice. |
| Publishing.CleanBatchByType | workers/crates/outbox-processor/src/main.rs:90-139 | A clean batch marks exactly the picked rows of the two types and appends exactly one message for each; rows of other types get none and stay. |
| Publishing.SmallOutboxPublished | workers/crates/outbox-processor/src/main.rs:63-141 | At most a hundred pending rows of the two types: one clean batch marks them all and publishes each, in order, on its own topic. |
| Publishing.FailureDecides | workers/crates/outbox-processor/src/main.rs:113-139 | The first send that goes wrong decides: refused or unacknowledged, the rows before it are marked if the commit goes through; a failed UPDATE, nothing is marked. |
| Publishing.KnownTypesDrain | workers/crates/outbox-processor/src/main.rs:24 | The drain bound for sales and purchase orders by name, with k < 100 pending rows of other types. |
| Publishing.KnownTypesDrainExactly | workers/crates/outbox-processor/src/main.rs:98-105 | A pending row is ever published if and only if it is of one of the two types and fewer than a hundred rows of other types come before it. |
| Publishing.SendRows | workers/crates/outbox-processor/src/main.rs:90-137 | The row loop sends the mapped rows in order up to the first failure, marks the delivered ones and rolls back only on a failed UPDATE. |
| Publishing.BatchIsRun | workers/crates/outbox-processor/src/main.rs:63-141 | Whatever the sends and the commit do, the batch method ends where a run of the pipeline's worker ends. |
| Publishing.PollProgress | workers/crates/outbox-processor/src/main.rs:24 | With k < 100 rows without a topic, a clean poll takes at least min(n, 100 - k) of n mapped rows and leaves the others pending. |
| Publishing.DrainBound | workers/crates/outbox-processor/src/main.rs:63-140 | The mapped backlog is empty after any number of polls p with n <= p(100 - k), and the rows without a topic are still pending. |
| Publishing.DrainsExactlyWhenUnblocked | workers/crates/outbox-processor/src/main.rs:98-105 | A mapped row is ever published if and only if fewer than a hundred pending rows without a topic come before it. |
| Publishing.PollStallsExactlyWhenUnmapped | workers/crates/outbox-processor/src/main.rs:98-105 | A clean poll marks nothing if and only if no row it picks has a topic. |
| Publishing.StarvedForGood | workers/crates/outbox-processor/src/main.rs:98-105 | Once that happens no number of polls publishes anything again. |
| RollingWindow.ExpiryInvisible | analytics-engine/app/metrics/rolling_window.py:42-72 | With events at most five minutes ahead of the clock, every read gives what a hash that never expires would give, expiry and re-creation included. |
| RollingWindow.LeadIsExact | analytics-engine/app/metrics/redis_keys.py:10-14 | Expiry goes unnoticed for every write and read if and only if events are at most five minutes ahead. |
| RollingWindow.BucketsAreSales | analytics-engine/app/metrics/redis_keys.py:45-46 | Summing n buckets is summing the recorded sales whose timestamps fall into those minutes. |
| RollingWindow.WindowSandwich | analytics-engine/app/metrics/rolling_window.py:56-72 | With nothing recorded for later than now, the velocity is at least the sales of the last 840 s and at most those of less than 900 s. |
| Metrics.Redis.HandleMessage | analytics-engine/app/consumer.py:31-51 | An invalid or already seen event changes nothing; any other sets its key and records its lines, which adds exactly them to the day and the minute of each product. |
| Metrics.Redis.RecordSale | analytics-engine/app/metrics/rolling_window.py:32-53 | For every later read: until the new expiry one minute and one day of one product show the quantity more and their hashes' other fields what they showed, then nothing; all other hashes read as before. |
| Metrics.Redis.SalesVelocity | analytics-engine/app/metrics/rolling_window.py:56-72 | The read is the sum of the fifteen buckets up to the current one, nothing for an expired hash. |
| Metrics.LinesAdded | analytics-engine/app/metrics/rolling_window.py:48-53 | Recording lines one after another adds their units to one field of each product's hash and to no other. |
| Metrics.HandlingIsRun | analytics-engine/app/consumer.py:78-81 | Handling any message from delivery to offset commit is a run of the pipeline that does to its dedup keys and daily hashes exactly what the method does to its own. |
| Admins.AdminRemains | backend/app/modules/identity/services.py:126-165 | Every interleaving of demotions, deletions, promotions, invitations and aborts in which no promotion lands on a user being removed without the lock leaves at least one administrator. |
| Admins.NoPromotionNoRace | backend/app/modules/identity/services.py:131-152 | Without promotions of existing users every run is free of that race. |
| Admins.StrandsExactlyWhenStale | backend/app/modules/identity/services.py:126-165 | A tenant with an administrator can lose its last one without a further race if and only if an open transaction is removing an administrator it read as something else. |
| Admins.RacingPromotionStrands | backend/app/modules/identity/services.py:155-165 | One promotion between the unlocked read and the commit of a removal is enough to get there. |
| Admins.AloneCommits | backend/app/modules/identity/services.py:131-165 | A call alone in the system commits through the protocol exactly with the outcome of the atomic method, unless it would remove the one administrator. |
| Admins.Directory.UpdateUser | backend/app/modules/identity/services.py:131-152 | Refused exactly for an unknown user and for demoting the one administrator; otherwise sets exactly the role sent. |
| Admins.Directory.DeleteUser | backend/app/modules/identity/services.py:155-165 | Refused exactly for oneself, an unknown user and the one administrator. |
| Admins.Directory.AcceptInvitation | backend/app/modules/identity/services.py:262-280 | Succeeds exactly for an existing, unused, unexpired invitation to an unregistered address, and uses it up. |
| Combinations.KeyIdentifies | backend/app/modules/products/services.py:297-298 | Two attribute maps have the same key if and only if they are equal; the key is empty exactly for the empty map. |
| Combinations.KeyIsSortedItems | backend/app/modules/products/services.py:297-298 | The key has exactly the map's items, names ascending. |
| Combinations.AtMostIsDictionaryOrder | backend/app/modules/products/services.py:297-298 | Names are compared at their first difference, and a name comes before its extensions. |
| Combinations.GeneratorIs | frontend/src/components/ProductVariants.tsx:489-494 | On any non-empty axes, names repeated or not, the generator yields exactly the choices of one value per name from the last axis of that name, and none twice if and only if no axis repeats a value and every overwritten axis has a single one. |
| Combinations.EveryChoiceOnce | frontend/src/components/ProductVariants.tsx:489-494 | With different names and no repeated value the generator yields exactly the choices of one value per axis, each once, as many as the product of the axis lengths. |
| Combinations.RowsGiveDistinctAxes | frontend/src/components/ProductVariants.tsx:423-434 | From a catalogue with unique names and values, picking no attribute and no value twice gives axes with different names and no repeated value. |
| Combinations.ResolvedAxes | frontend/src/components/ProductVariants.tsx:423-434 | The axes are exactly those of the rows that picked an attribute and at least one value of it. |
| Combinations.ResolvedInOrder | frontend/src/components/ProductVariants.tsx:423-434 | They come in the order of their rows, one for each such row. |
| Combinations.PickedDistinct | frontend/src/components/ProductVariants.tsx:428-430 | The texts of a row are exactly the non-empty texts of the values it picked, without repetition. |
| Combinations.RepeatedNameRepeats | frontend/src/components/ProductVariants.tsx:489-494 | In any axes, a name that occurs again after an axis with at least two values makes combinations repeat. |
| Variants.LotKeepsDistinct | backend/app/modules/products/services.py:342-384 | A lot that fits keeps every product's non-empty combinations pairwise distinct and the SKUs unique. |
| Variants.DistinctLotRepeatsNothing | backend/app/modules/products/services.py:354-370 | Conversely, if the combinations are distinct afterwards the lot repeated none. |
| Variants.LotFitsExactly | backend/app/modules/products/services.py:342-384 | A lot fits if and only if its trimmed SKUs differ and the table with all its rows added has distinct combinations and unique SKUs. |
| Variants.CreationRefusedExactly | backend/app/modules/products/services.py:320-339 | A variant is refused if and only if its row would put a combination on the product twice or an SKU in the table twice; nulls and empty combinations never do. |
| Variants.PatchRefusedExactly | backend/app/modules/products/services.py:387-414 | A PATCH is refused if and only if the rewritten row, columns sent and columns kept, would do that. |
| Variants.SpacesAre | backend/app/modules/products/services.py:356 | The characters trimmed are the 29 code points Python counts as space. |
| Variants.StripTrims | backend/app/modules/products/services.py:356 | Trimming takes away all the spaces around an SKU and nothing else. |
| Variants.CheckLot | backend/app/modules/products/services.py:349-370 | The loop passes exactly the lots that repeat no trimmed SKU and no combination, and otherwise reports the first repetition. |
| Variants.VariantTable.CreateVariantsBulk | backend/app/modules/products/services.py:342-384 | All or nothing: the whole lot exactly when it fits, including the unique constraint on SKUs as written; otherwise nothing and the matching error. |
| Variants.VariantTable.CreateVariant | backend/app/modules/products/services.py:320-339 | Refused exactly for an unknown product, a used combination or a used SKU. |
| Variants.VariantTable.UpdateVariant | backend/app/modules/products/services.py:387-414 | Compares the new combination with the other variants only, writes exactly the columns sent and keeps combinations distinct. |
| Variants.VariantTable.DeleteVariant | backend/app/modules/products/services.py:417-420 | Removes exactly the named variant of the named product and keeps combinations distinct. |
| Variants.GeneratedLotFits | frontend/src/components/ProductVariants.tsx:489-494 | A generated lot with blank SKUs is accepted whole if and only if no axis repeats a value, every overwritten axis has a single one and the product has no variant with one of the non-empty choices. |
| Variants.PickedRowsFit | frontend/src/components/ProductVariants.tsx:423-434 | On a product without variants, what is generated from any picked rows is accepted whole if and only if no attribute with several values picked is picked again later; in particular when every attribute is picked once. |
| Forecast.StockoutIsFirstReach | backend/app/services/stock_alerts.py:32-45 | The answer is d if and only if d is the least day whose prefix sum reaches the stock; there is none exactly when no prefix sum does. |
| Forecast.DaysUntilStockout | backend/app/services/stock_alerts.py:32-45 | The alert's scan gives that day for every forecast and stock. |
| Forecast.ForecastDaysToStockout | analytics-engine/scripts/forecast_stockout.py:72-134 | The batch job gives that day on the clamped forecast, its date, and the history and no-stock answers in that order of precedence. |
| Forecast.ForecastSays | analytics-engine/scripts/forecast_stockout.py:72-134 | The stored answer: nothing on fewer than the required days (seven by default), today without stock, otherwise the first day whose prefix sum reaches the stock and the date that many days after today. |
| Forecast.MoreStockLastsLonger | backend/app/services/stock_alerts.py:32-45 | More stock never runs out earlier. |
| Forecast.SellingShifts | backend/app/services/stock_alerts.py:32-45 | After selling exactly the first k forecast days the rest runs out exactly k days sooner, for any k up to the answer. |
| Forecast.OnceGoneStaysGone | analytics-engine/scripts/forecast_stockout.py:111-114 | On a clamped forecast the prefix sums that reach the stock are exactly those from the answer on. |
| Forecast.AlertOnChangedStock | backend/app/services/stock_alerts.py:32-66 | For any stock at the forecast and any stock now, the alert answers what the batch would answer for the stock now if and only if the stored forecast covers it: stock now on a short history; otherwise not made with none while the model foresees selling all there is now. |
| Forecast.ScansAgree | backend/app/services/stock_alerts.py:61-66 | On unchanged stock alert and batch agree if and only if the history sufficed or there was stock. |
| Forecast.RestockedGetsNoAlert | analytics-engine/scripts/forecast_stockout.py:95-103 | Stock that arrives after a forecast made with none gets no alert, and one is missed if and only if the model foresees selling all that arrived. |
| Forecast.SeriesKeepsTotal | analytics-engine/scripts/forecast_stockout.py:59-69 | The series runs from the first to the last day without gaps, has each day's sales at its place and zero elsewhere, and keeps the total. |
| Migration.Database.Upgrade | backend/alembic/versions/588d0c9b73f9_sale_number_and_ars_default.py:37-67 | From any sales of any tenants, each tenant's sales end numbered 1..N by date and its counter at N + 1; nothing else changes. |
| Migration.RowNumbers | backend/alembic/versions/588d0c9b73f9_sale_number_and_ars_default.py:37-46 | The row numbers of each tenant are 1..N, each once, increasing with the date, ties in any order. |
| Migration.FillCounters | backend/alembic/versions/588d0c9b73f9_sale_number_and_ars_default.py:55-67 | Each counter is one more than the tenant's largest number, or the default without sales. |
| Migration.MigratedIsGapless | backend/alembic/versions/588d0c9b73f9_sale_number_and_ars_default.py:34-67 | The migrated numbers satisfy the invariant from which every later sale keeps them gapless. |

## Left out

- Serializability.BalanceWithinLimit: assumes the limit stays set; while it is null the code sets no bound.
- Counting.AddedAtMostOnce: assumes every redelivery comes within a day of the first delivery; what happens otherwise is stated by LateRedeliveryCountsTwice.
- Metrics.Redis.RecordSale: the four commands of one line are one step; a connection lost between its increment and its expiry leaves the old expiry in place.
- Publishing.PublishedInOrder: assumes one replica and rows that become visible in the order of their dates.
- Services.TenantStore.UpdateProduct: the SKU and category of the PATCH, with their conflict and not-found errors, and explicit nulls are not modelled; the columns that sales read are.
- Services.TenantStore.UpdateVariantStock: the stock column only; Variants.VariantTable.UpdateVariant has the attributes and the SKU of the same PATCH.
- Admins.Directory.UpdateUser: the names and the password of the PATCH do not affect who is an administrator and are not modelled.
- Admins.AdminRemains: sessions of one tenant only; an explicit null role, which the database refuses, is an abort.
- Migration.MigratedIsGapless: the currency columns the migration also rewrites are not modelled.
- Cash sessions and variant combinations under interleaving: those calls take no lock that would protect them, so both are stated for atomic calls.
- Partitions of the topics: each topic is one log, read by one consumer.
- Creation, listing and deletion of products and customers, categories, attribute catalogue edits, quote status, the purchase order worker, and the confidence figure of the alert.
- Currency, card numbers, user names, free text, timestamps of rows other than those compared, and the order of listings.
- IEEE rounding, integer widths and time zones.
- Null sent explicitly for a variant's attributes or stock, which the service fails on before or at the commit.
- Deleting a product together with its variants; superadmin sessions; deadlock freedom.
- The generator's SKU suggestions and the browser's own duplicate warnings.
- Routes, request validation, tokens, hashing, mail, PDF and rendering.
- The fitted forecasting model: its output is any list of numbers.
