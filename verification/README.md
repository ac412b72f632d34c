# Verified model of the inventory service

A Dafny model of four stateful parts of the Go inventory service, with machine-checked
proofs about them. Each part is modelled with its failure points: every storage, broker
and cache call may fail at any time.

1. **Allocation** (`Allocation`, `InventoryTables`, `Persistence`, `MemoryCache`,
   `InventoryService`). `Produce` adds stock, `Reserve` queues demand, `FillReserves` moves
   stock to the oldest open reservations, at most 100 per pass, in a transaction with
   savepoints. `Allocation` is the greedy pass as a function and its laws. The classes
   `Repository` and `Service` are the code, call by call, and are proved against it.
   `InventoryConcurrency` interleaves the same transactions at repository-call granularity
   under the row locks of `SELECT ... FOR UPDATE`; `InventoryOrder`, `InventorySerial` and
   `ReserveDedupe` prove about it first come, first served, serializability in commit order,
   and the dedupe of `Reserve`; `InventoryProgress` proves that transactions no one blocks can
   commit, and what they then leave behind.
2. **Commands** (`CommandHandling`, `DedupeProtocol`). The Kafka consumer's bounded retries
   around a dedupe row around `Produce`, first as imperative code with one consumer, then as
   a step system of concurrent `Apply` calls.
3. **The reconnecting AMQP publisher** (`AmqpPublisher`). Session factory, publisher and the
   select loop of one session as one step system.
4. **REST idempotency and the span tree** (`RestIdempotency`, `SpanTree`). The middleware,
   its recording writer and TTL store refine a timed map; the recursive span walk with a
   shared budget renders a prefix of the preorder.

`dafny verify dfyconfig.toml` checks the whole project (Dafny 4.11).

## How to read it

* State machines are a predicate `Enabled`, a function `Next`, and runs as sequences of
  labelled steps; the theorems speak about `After(Initial, run)` for every possible run.
* `Environment.Flaky` is a call that may fail; the ghost counter `faults` counts the failures,
  so a contract can say "succeeds exactly when nothing failed".
* `Inv` in `InventoryTables` collects the invariants of the committed tables: conservation
  per SKU, first come first served, reservation lifecycle, distinct request ids. `Evolves`
  says what no call undoes. `Service.Valid` adds the cache.
* `ProduceOutcome` and `ReserveOutcome` say how a call may leave the tables, given its error.

## What is assumed

* The clock moves forward between two readings, so creation times of reservations increase
  with their ids in the sequential model.
* A commit that reports an error has not happened.
* The constraints of `internal/platform/persistence/migrations/000001_create_products_table.up.sql`
  hold: UNIQUE request ids (lines 17 and 29), UNIQUE upc (line 4) and the REFERENCES
  clauses. The concurrent model uses the one on production events for concurrent `Produce`
  calls; `ReserveDedupe` does not use the one on reservations.
* `FOR UPDATE` locks are held to the end of the transaction. The rows of one
  `FOR UPDATE` query are locked one by one in the order of the query, and a row that is no
  longer open when its turn comes is skipped. The batch may stop anywhere, which covers every
  moment at which the query may have been started.
* In the concurrent model, all service instances read one clock that moves forward: a
  creation time taken later is larger, whichever instance takes it. Hosts whose clocks are
  skewed can break `InventoryOrder.ConcurrentFifo`.
* A response header has one value. The recorder keeps the first value of a header and the
  replay sets it, so a second value added by a handler would not be replayed.
* An informational status (1xx other than 101) is passed to the client and does not end the
  header phase of a `net/http` ResponseWriter; a first `Write` implies status 200.
* The SHA-256 digest is a function parameter; only equality of digests matters. The problem
  encoder and the calls a handler makes on its writer are parameters too.
* A broker confirms a message at most once.

## Where the code and its documentation disagree

The model follows the code.

* A request body over 1 MiB: the comment says it skips the cache
  (`internal/platform/idempotency/rest/middleware.go:97-99`); the code answers 400
  (lines 122-126 and 194-196), and exactly then (`RestIdempotency.UnreadableIsRefused`).
* A failed AMQP publish: the comment promises a retry on the next session
  (`internal/platform/messaging/amqp/queue.go:327-330`); `pending` is local to one session,
  so the message is lost and never sent again (`AmqpPublisher.FailedPublishIsLost`,
  `AmqpPublisher.LostExactlyWhen`).
* Cancellation while redialling: the comment says the consumer sees its channel close
  (`queue.go:199-201`); only `sessions` is closed, so the consumer waits forever
  (`AmqpPublisher.StoppingStrandsExactlyTheParked`).
* A failed DELETE of a dedupe row: the comment says retries and the dead-letter topic route
  the record correctly (`internal/platform/idempotency/idempotency.go:113-118`); the retry is
  skipped and counts as handled (`DedupeProtocol.FailedDeleteLosesTheEvent`).
* The dedupe insert: the comment of migration 000003 (lines 5-8) puts it into the transaction
  of the work, so that a crash mid-handler leaves the consumer free to retry. The code commits
  it before the handler runs, so after such a crash no retry ever runs the handler
  (`DedupeProtocol.CrashLosesTheEvent`, `DedupeProtocol.StuckForever`); the retry is free
  exactly when the row was not in the table (`DedupeProtocol.RetryAfterCrash`).
* Byte-for-byte replay of status, curated headers and body (`middleware.go:84-89`). Status
  and body: a 2xx or 4xx response is recorded, and so replayed, exactly when the handler does
  not open with an informational status (`RestIdempotency.RecordedExactlyWhenRecordable`).
  103 then 404 even changes the client's status to 200 (`RecorderKeepsStatus`,
  `EarlyHintsLoseTheStatus`); 103 then 200 runs again on the retry (`HintedOkRunsAgain`).
  Headers: they are read after the handler has returned, so a recorded header is replayed as
  first sent exactly when the handler left it alone after its first write (`ReplayedHeaders`,
  `LateHeaderIsReplayed`).

## Model

| member | source | states |
|---|---|---|
| `Allocation.FillClosedForm` | internal/inventory/service.go:474-533 | The row at position p gets exactly min(its shortfall, whatever the demand ahead of it left over) if it is among the first `budget` open rows of the SKU, and is untouched otherwise. |
| `Allocation.FillTotalGranted` | internal/inventory/service.go:474-533 | One pass grants min(available, total shortfall of the batch). |
| `Allocation.FillTouchesAPrefix` | internal/inventory/service.go:474-533 | If a pass touches a row, every older open row of the SKU leaves the pass Closed: a Closed prefix, at most one partial row, an untouched rest. |
| `Allocation.FillConserves` | internal/inventory/service.go:498-503 | What leaves the shelf of a SKU turns up in the reservations of that SKU and no other SKU changes. |
| `Allocation.FillEvolves` | internal/inventory/service.go:494-530 | Stock never goes negative, no row is over-filled, Closed means full, reserved quantities only grow and Closed rows are frozen. |
| `Allocation.FillIdle` | internal/inventory/service.go:494-496 | Without stock, budget or open rows a pass changes nothing. |
| `Allocation.FillKeepsFifo` | internal/inventory/service.go:464-533 | No overtaking: a pass keeps "a later reservation holds stock only if every earlier one of its SKU is Closed". |
| `Allocation.FillCompose` | internal/inventory/service.go:464-551 | Two passes in a row are one pass with the batch sizes added. |
| `Allocation.FillSaturates` | internal/inventory/service.go:464-551 | All batch sizes that cover the open queue give the same result. |
| `Allocation.PassesAreOneFill` | internal/inventory/service.go:464-551 | k passes of one batch size are a single pass of k times that size. |
| `Allocation.BatchesReachTheUnboundedFill` | internal/inventory/service.go:464-551 | Once k batches cover the queue, k passes equal one unbounded pass and further passes change nothing. |
| `Allocation.NoIdleAfterFill` | internal/inventory/service.go:474-551 | A pass leaves no idle stock if and only if the batch covered the queue or could absorb all the stock. |
| `Allocation.FillOneMore` | internal/inventory/service.go:474-530 | Widening the batch by one reservation changes exactly that row and the shelf: the loop body of FillReserves. |
| `Allocation.FillStopsWhenEmpty` | internal/inventory/service.go:494-496 | Leaving the loop when the stock is gone loses nothing: a wider batch gives the same tables. |
| `Allocation.Position` | internal/inventory/repository.go:245-256 | The i-th row of the query is the i-th open row of the SKU in creation order. |
| `Allocation.UpdateRowIsPointwise` | internal/inventory/repository.go:205-217 | UPDATE by id rewrites exactly one row when ids are distinct. |
| `Allocation.HeldUpdate` | internal/inventory/repository.go:205-217 | Rewriting one row moves the stock held by its SKU by exactly the difference. |
| `InventoryTables.CreateKeepsConsistent` | internal/inventory/service.go:112-136 | Registering an unknown SKU, the empty one included, keeps conservation, lifecycle, order and uniqueness, and undoes nothing. |
| `InventoryTables.CreateKeepsInv` | internal/inventory/service.go:112-136 | A committed CreateProduct of a non-empty SKU keeps all table invariants. |
| `InventoryTables.ProduceKeepsInv` | internal/inventory/service.go:181-207 | A committed Produce keeps all table invariants: available + reserved = produced for every SKU. |
| `InventoryTables.ReserveKeepsInv` | internal/inventory/service.go:268-283 | A committed Reserve keeps all table invariants. |
| `InventoryTables.FillKeepsInv` | internal/inventory/service.go:464-551 | A committed FillReserves keeps all table invariants. |
| `InventoryTables.CommitKeepsInv` | internal/inventory/service.go:96-290 | Whatever transaction commits, the invariants hold after it and nothing earlier is undone. |
| `InventoryTables.ExecuteKeepsInv` | internal/inventory/service.go:96-552 | The same for every finite sequence of committed transactions. |
| `InventoryTables.SingleContribution` | internal/inventory/service.go:164-172 | With distinct request ids, a request id adds its quantity to the stock once. |
| `InventoryTables.ContributesOnce` | internal/inventory/service.go:164-207 | A request id that has contributed keeps contributing exactly its quantity in every later state. |
| `InventoryTables.StockGrows` | internal/inventory/service.go:174-203 | Recording one production raises available + reserved of its SKU by exactly its quantity. |
| `InventoryTables.InvMeans` | internal/inventory/service.go:96-552 | The invariants in plain terms, field by field: conservation per SKU, lifecycle of every reservation, no overtaking, unique ids and request ids. |
| `InventoryTables.EvolvesMeans` | internal/inventory/service.go:494-530 | What no call undoes, field by field. |
| `InventoryTables.OneHundredPerFill` | internal/inventory/service.go:464-533 | One FillReserves serves the 100 oldest open reservations with min(shortfall, what is left), and touches no row behind them. |
| `InventoryTables.OneFillLeavesNothingIdle` | internal/inventory/service.go:464-551 | With at most 100 open reservations, one FillReserves leaves no stock or no open reservation of the SKU. |
| `InventoryTables.BatchRefinesUnbounded` | internal/inventory/service.go:464-551 | ceil(n/100) successful FillReserves over n open reservations reach the tables of one unbounded greedy pass, and stay there. |
| `InventoryTables.FillAndIdleStock` | internal/inventory/service.go:474-551 | A successful FillReserves restores "no idle stock" for its SKU exactly when 100 reservations were enough, and never changes that property for another SKU. |
| `InventoryTables.CompletedKeepsInv` | internal/inventory/service.go:96-290 | A call that completes without failure keeps every invariant and undoes nothing. |
| `InventoryTables.CompletedLeavesNoIdleStock` | internal/inventory/service.go:164-218 | With at most 100 open reservations of a SKU, a completed call leaves no idle stock of it if and only if there was none before, or the call was no duplicate and filled that SKU. |
| `InventoryTables.DuplicateLeavesStockIdle` | internal/inventory/service.go:169-172 | A reachable state in which a Produce that committed and failed before its fill is retried: the retry succeeds as a duplicate and leaves stock idle beside an open reservation. |
| `InventoryTables.RunKeepsInvAndNoIdleStock` | internal/inventory/service.go:96-290 | Over every run of completed calls the invariants hold, nothing is undone, and no stock idles while no SKU gets crowded. |
| `InventoryTables.EmptySkuFill` | internal/inventory/repository.go:232-243 | For a product registered under the empty SKU the query loses its filter; FillReserves then keeps conservation if and only if there was no stock or nobody waiting. |
| `InventoryTables.NamelessStockIsReached` | internal/inventory/service.go:112-136 | Four commits reach stock under the empty SKU beside a waiting reservation of another one. |
| `InventoryTables.EmptySkuBreaksConservation` | internal/inventory/repository.go:232-243 | The next fill of the empty SKU then breaks conservation, from tables that were consistent. |
| `Persistence.OrderByCreatedSorts` | internal/inventory/repository.go:256 | ORDER BY created: sorted, and the same rows. |
| `Persistence.BatchQuery` | internal/inventory/repository.go:221-279 | The query of FillReserves returns the front of the open queue of the SKU. |
| `Persistence.PageMeans` | internal/inventory/repository.go:256 | LIMIT and OFFSET: the rows from the offset on, at most the limit. |
| `Persistence.MatchingMeans` | internal/inventory/repository.go:229-252 | The filter keeps exactly the rows of the SKU and state asked for, as often as they occur. |
| `Persistence.Repository.BeginTransaction` | internal/inventory/repository.go:321-327 | A transaction starts from the committed tables, or fails and changes nothing. |
| `Persistence.Repository.Commit` | internal/inventory/service.go:205-207 | Commit publishes all pending writes, or fails and publishes none. |
| `Persistence.Repository.RollbackToSavepoint` | internal/inventory/service.go:480-484 | Rolling back a sub-transaction restores the pending tables of its start. |
| `Persistence.Repository.GetProduct` | internal/inventory/repository.go:77-94 | Found, not found, or failed; never a wrong row. |
| `Persistence.Repository.SaveProduct` | internal/inventory/repository.go:24-49 | Upsert by SKU; refused when another SKU uses the UPC. |
| `Persistence.Repository.SaveProductInventory` | internal/inventory/repository.go:51-75 | Upsert of the stock of one SKU; refused without its product. |
| `Persistence.Repository.GetProductInventory` | internal/inventory/repository.go:96-113 | The joined row of a SKU, or not found. |
| `InventoryTables.FindReservation` | internal/inventory/repository.go:281-299 | The lookup by request id finds a row exactly when one carries the id. |
| `Persistence.Repository.GetProductionEventByRequestID` | internal/inventory/repository.go:149-166 | The committed event of a request id, not found, or failed. |
| `Persistence.Repository.SaveProductionEvent` | internal/inventory/repository.go:168-185 | Appends the event unless its request id is taken or its SKU unknown. |
| `Persistence.Repository.GetReservationByRequestID` | internal/inventory/repository.go:281-299 | The row of a request id, inside a transaction or outside; not found, or failed. |
| `Persistence.Repository.SaveReservation` | internal/inventory/repository.go:187-203 | Appends the row under a fresh id unless its request id is taken or its SKU unknown. |
| `Persistence.Repository.UpdateReservation` | internal/inventory/repository.go:205-217 | Rewrites state and reserved quantity of the row with the id. |
| `Persistence.Repository.GetReservations` | internal/inventory/repository.go:221-279 | Filter, order, limit and offset over the pending rows. |
| `MemoryCaching.MemoryCache.Get` | internal/platform/cache/memory.go:28-42 | Returns what is visible now; evicting a stale entry is invisible to every later read. |
| `MemoryCaching.MemoryCache.Set` | internal/platform/cache/memory.go:44-55 | Makes the value visible until its TTL has passed; a TTL of zero or less never expires. |
| `MemoryCaching.MemoryCache.Delete` | internal/platform/cache/memory.go:57-62 | Removes the key from every later view and nothing else. |
| `InventoryService.ProductCacheKeyInjective` | internal/inventory/service.go:94 | Different SKUs never share a cache key. |
| `InventoryService.Service.constructor` | internal/inventory/service.go:76-88 | A new service is valid over empty tables; a TTL of zero or less becomes five minutes. |
| `InventoryService.Service.PublishInventory` | internal/inventory/service.go:554-579 | A refused publish leaves the cache alone; an accepted one drops the cached row of the SKU, or marks it possibly stale when the cache is unreachable. |
| `InventoryService.Service.FillOne` | internal/inventory/service.go:498-544 | One reservation inside its savepoint: on success the pending tables differ by exactly one grant. |
| `InventoryService.Service.FillBatch` | internal/inventory/service.go:474-545 | The loop: after n rounds the pending tables are those of a pass over n reservations, and it stops early only when the stock is gone. |
| `InventoryService.Service.FillTransaction` | internal/inventory/service.go:454-551 | All or nothing: the committed tables are those of one whole pass, or unchanged. |
| `InventoryService.Service.FillReserves` | internal/inventory/service.go:447-552 | Commits one whole pass of at most 100 reservations exactly when no call it made failed; otherwise the committed tables are unchanged. With at most 100 open reservations it leaves no stock or no open one. Every service invariant is kept. |
| `InventoryService.Service.CreateProduct` | internal/inventory/service.go:96-139 | Registers an unknown SKU, with the product as given and no stock, is a no-op for a known one, and changes nothing on any failure; it succeeds exactly when nothing failed and no other SKU has the UPC. The tables stay consistent for every SKU, and safe to fill for every non-empty one. |
| `InventoryService.Service.RecordProduction` | internal/inventory/service.go:181-207 | The event and its stock are committed together, or neither is. |
| `InventoryService.Service.Produce` | internal/inventory/service.go:141-219 | With a failure possible at every call: the tables are unchanged, or exactly one production is appended, with the request id, SKU and quantity asked for, and available + reserved of the SKU grows by that quantity, also when the publish or the fill fails after the commit. It succeeds exactly when the request is valid, the SKU or request id known, and nothing failed. Conservation, order, lifecycle and cache invariants hold every time. |
| `InventoryService.Service.RecordReservation` | internal/inventory/service.go:243-283 | Finds the row of the request id, or commits a new one; nothing else changes. |
| `InventoryService.Service.Reserve` | internal/inventory/service.go:221-290 | The same for demand: the tables are unchanged, or exactly one row is appended with the request id, requester, SKU and quantity asked for, also when the fill fails. The answer is that row, open and empty, or the row the request id had before. |
| `InventoryService.Service.GetProductInventory` | internal/inventory/service.go:333-364 | Every value returned is of the product registered under the SKU; it was the committed row at some moment within the last cache TTL, and its stock is the stock committed now unless an invalidation of that SKU was missed. |
| `InventoryService.Service.ReadCache` | internal/inventory/service.go:342-351 | A hit was the committed row within the TTL; a cache error is a miss. |
| `InventoryService.ProduceAndFill` | internal/inventory/service.go:205-218 | Production then fill: invariants hold in between and after, and the result is that of a completed call. |
| `InventoryService.ReserveAndFill` | internal/inventory/service.go:281-289 | Reservation then fill: the same. |
| `InventoryService.ProduceMeans` | internal/inventory/service.go:174-203 | A committed Produce, however it ended, appended its event and raised available + reserved of its SKU by the quantity. |
| `InventoryService.ReserveMeans` | internal/inventory/service.go:268-283 | A committed Reserve, however it ended, appended its row, which has only been filled since. |
| `InventoryService.FillNext` | internal/inventory/service.go:498-530 | The next round of the loop is a grant to the next row of the queue. |
| `InventoryService.FillStops` | internal/inventory/service.go:494-551 | Wherever the loop stops, the tables are those of the full batch. |
| `InventoryConcurrency.UpdatesMoveStock` | internal/inventory/service.go:515-530 | Writing a batch back moves exactly the granted difference into the rows of its SKU. |
| `InventoryConcurrency.UpdatesArePointwise` | internal/inventory/repository.go:205-217 | Only the updated ids change, and only in fill state. |
| `InventoryConcurrency.ProduceCommitsOntoCurrentStock` | internal/inventory/service.go:195-207 | No lost update: a Produce that commits adds its quantity to the stock committed at that moment, not at the moment it read. |
| `InventoryConcurrency.FillCommitsConserve` | internal/inventory/service.go:464-551 | A FillReserves that commits amid others leaves available + reserved of every SKU as it was. |
| `InventoryConcurrency.FinishKeepsStock` | internal/inventory/service.go:469 | A commit cannot change a stock row another transaction has locked. |
| `InventoryConcurrency.FinishKeepsOthers` | internal/inventory/service.go:181-207 | Whatever a transaction has read under FOR UPDATE stays true through the commits of all others. |
| `InventoryConcurrency.FinishKeepsGood` | internal/inventory/service.go:181-207 | A commit keeps the system invariant. |
| `InventoryConcurrency.MoveKeepsGood` | internal/inventory/service.go:181-551 | Every repository call of every transaction keeps the system invariant. |
| `InventoryConcurrency.StepKeepsGood` | internal/inventory/service.go:96-552 | Every step keeps it: begin, call, commit, abort, product creation. |
| `InventoryConcurrency.RunKeepsGood` | internal/inventory/service.go:96-552 | So does every interleaving. |
| `InventoryConcurrency.ConcurrentConservation` | internal/inventory/service.go:181-551 | For any number of transactions in any interleaving with aborts anywhere: available + reserved = produced per SKU, stock is not negative, no row is over-filled, and no request id produces twice. |
| `InventoryOrder.OneReservePerSku` | internal/inventory/service.go:253-283 | Two Reserves of one SKU are never both past taking the product lock. |
| `InventoryOrder.FillCommits` | internal/inventory/service.go:474-549 | What a Fill that commits amid others does to each row: rewritten as its batch says, or left alone; in both cases it only evolves. |
| `InventoryOrder.GatheredInOrder` | internal/inventory/repository.go:255-257 | The rows of a batch are locked oldest first. |
| `InventoryOrder.FillCommitsFifo` | internal/inventory/service.go:494-549 | A Fill that gives stock to a reservation closes every older open one of its SKU. |
| `InventoryOrder.ReserveCommitsOrdered` | internal/inventory/service.go:268-283 | A Reserve commits the youngest row of its SKU, because it takes the creation time under the product lock. |
| `InventoryOrder.StepKeepsOrdered` | internal/inventory/service.go:96-552 | Every step of every transaction keeps first come, first served. |
| `InventoryOrder.StepEvolves` | internal/inventory/service.go:96-552 | No step undoes a registration, a production, a reservation or what it was given; Closed rows are frozen. |
| `InventoryOrder.RunKeepsOrdered` | internal/inventory/service.go:96-552 | Both over every interleaving. |
| `InventoryOrder.ConcurrentFifo` | internal/inventory/service.go:243-551 | No overtaking under any interleaving with aborts anywhere: a reservation holds stock only if every reservation of its SKU created before it is Closed; and whatever was committed at some moment only evolves from then on. |
| `InventorySerial.BatchIsQueueFront` | internal/inventory/repository.go:255-257 | A batch that is sorted and skips no older open row is the front of the queue. |
| `InventorySerial.GrantsAreTheFill` | internal/inventory/service.go:498-530 | Granting along the batch and writing the rows back by id is the sequential pass over as many rows. |
| `InventorySerial.BatchIsFront` | internal/inventory/repository.go:255-257 | The batch a Fill locked row by row is the front of the open queue of the tables committed at any later moment of it. |
| `InventorySerial.FillIsSerial` | internal/inventory/service.go:454-551 | A Fill that commits amid others is exactly one sequential pass over the tables committed at that moment. |
| `InventorySerial.ReserveIsSerial` | internal/inventory/service.go:243-283 | A Reserve that commits amid others is the sequential one; ids, creation times and request ids of its SKU are as if it had run alone. |
| `InventorySerial.StepIsSerial` | internal/inventory/service.go:96-552 | Every step commits one sequential transaction onto the tables of that moment, or nothing. |
| `InventorySerial.StepKeepsSerial` | internal/inventory/service.go:96-552 | Every step keeps "each Fill has granted what the sequential pass would, each Reserve is alone with its request id in its SKU". |
| `InventorySerial.RunIsSerial` | internal/inventory/service.go:96-552 | From every such state, a run leaves the tables of its log replayed. |
| `InventorySerial.ConcurrentRunsAreSerial` | internal/inventory/service.go:96-552 | Serializability: for every interleaving with aborts anywhere, the committed tables are those of the committed transactions executed alone, one after the other, in the order of their commits. |
| `ReserveDedupe.OnlyOneInserts` | internal/inventory/service.go:253-283 | While one Reserve of a request id has its row pending, every other one is still waiting for the product lock. |
| `ReserveDedupe.InsertKeepsDeduped` | internal/inventory/service.go:277-283 | The commit of that row leaves one row per request id. |
| `ReserveDedupe.StepKeepsDeduped` | internal/inventory/service.go:243-283 | Every step keeps "one row, and every answer names it". |
| `ReserveDedupe.RunKeepsDeduped` | internal/inventory/service.go:243-283 | So does every interleaving. |
| `ReserveDedupe.ConcurrentReserveDedupe` | internal/inventory/service.go:243-283 | Concurrent Reserves of one request id and SKU commit at most one row, and all successful callers get its id, without help from the UNIQUE constraint. |
| `InventoryProgress.FillCanComplete` | internal/inventory/service.go:447-552 | Whenever no other transaction holds the rows of the SKU, a FillReserves can run to its commit by its own steps, whatever else is in flight, and leaves one pass over the 100 oldest open reservations. |
| `InventoryProgress.ProduceCanComplete` | internal/inventory/service.go:174-207 | Likewise a Produce of a known SKU under a new request id: one event appended, the stock raised by its quantity, nothing else changed. |
| `InventoryProgress.ReserveCanComplete` | internal/inventory/service.go:243-283 | Likewise a Reserve under a new request id: the row asked for, field by field, appended, and answered with. |
| `InventoryProgress.DuplicateReserveCanComplete` | internal/inventory/service.go:258-266 | Likewise a Reserve whose request id has a row: no table changes, and that row is the answer. |
| `InventoryProgress.CreateCanComplete` | internal/inventory/service.go:112-136 | An unknown product can be registered, as given and without stock. |
| `InventoryProgress.AbortLeavesNothing` | internal/inventory/service.go:185-189 | An abort is possible at any moment and leaves no trace. |
| `InventoryProgress.ReserveCommitsTheRequest` | internal/inventory/service.go:268-283 | A row committed by a Reserve amid others has the request id, requester, SKU and quantity of its request. |
| `CommandHandling.Applier.Claim` | internal/platform/idempotency/idempotency.go:98-111 | The dedupe row is inserted exactly when it was not there, and the caller learns which. |
| `CommandHandling.Applier.Release` | internal/platform/idempotency/idempotency.go:113-124 | The row is taken back, or its event is remembered as stuck. |
| `CommandHandling.Applier.CleanupOnce` | internal/platform/idempotency/idempotency.go:141-156 | Exactly the rows inside the window survive, and the count returned is the number pruned. |
| `CommandHandling.Consumer.constructor` | internal/platform/messaging/kafka/consumer.go:94-112 | Defaults for retries and backoff; a new consumer is valid. |
| `CommandHandling.Consumer.HandleCommand` | internal/inventory/transport_kafka.go:45-58 | Succeeds exactly for a production of a known SKU with nothing failing. A success under a new request id appends exactly one production with the SKU, request id and quantity of the payload and raises available + reserved of that SKU by that quantity; whatever happens, nothing else is ever produced, and any other command changes no table. |
| `CommandHandling.Consumer.Apply` | internal/platform/idempotency/idempotency.go:93-130 | Succeeds exactly when nothing failed and the dedupe row was there or the command could be carried out; runs the handler at most once, and never beside a dedupe row. A dedupe row only ever stands for an event whose production is committed or whose DELETE failed; other events are not touched. |
| `CommandHandling.Consumer.Retry` | internal/platform/messaging/kafka/consumer.go:171-189 | The attempts of one delivery: when nothing fails the first attempt decides; giving up on a command that could be carried out takes a failure in every attempt; f failed attempts wait retryBase * (2^f - 1). |
| `CommandHandling.Consumer.Dispatch` | internal/platform/messaging/kafka/consumer.go:160-190 | Handled, dead-lettered or cancelled; dead-lettered without an attempt exactly when the record is no envelope, lacks an event id, or asks for a production without SKU, request id or positive quantity. The handler runs at most once per attempt and at most maxRetries + 1 times, exactly once per attempt when nothing fails and the event has no dedupe row; without failures a delivery is handled if and only if the event has a dedupe row or can be carried out; handled implies that some delivery of the event id has committed its production, unless the event is stuck. All attempts together produce nothing, or once what the envelope asks for. |
| `CommandHandling.Consumer.Poll` | internal/platform/messaging/kafka/consumer.go:130-155 | For every batch of records, redeliveries and failures: every valid record is delivered, each acknowledgement is justified, the handler runs at most maxRetries + 1 times per record, invalid records are dead-lettered, every command that can be carried out is handled when nothing fails, everything produced during the poll was asked for by one of its records with that request id, SKU and quantity, and every committed request id counts its quantity exactly once. |
| `CommandHandling.DoneForGood` | internal/platform/messaging/kafka/consumer.go:160-190 | An event that is done stays done whatever is delivered later. |
| `CommandHandling.NextBackoff` | internal/platform/messaging/kafka/consumer.go:183 | The first wait is retryBase, each one doubles the one before, and n of them add up to retryBase * (2^n - 1). |
| `CommandHandling.CountedOnce` | internal/inventory/service.go:164-207 | Whatever had been produced earlier is still counted once later. |
| `DedupeProtocol.StepKeepsInv` | internal/platform/idempotency/idempotency.go:93-130 | Every statement of every concurrent Apply keeps: one owner per key, owners have their row, every row has an owner or is stuck. |
| `DedupeProtocol.RunKeepsInv` | internal/platform/idempotency/idempotency.go:93-130 | So does every interleaving. |
| `DedupeProtocol.OneHandlerAtATime` | internal/platform/idempotency/idempotency.go:93-130 | Never two handlers of a key in flight or successful at once, nor one in flight after a success. |
| `DedupeProtocol.SuccessIsFinal` | internal/platform/idempotency/idempotency.go:128-129 | No later step changes a successful call. |
| `DedupeProtocol.AttemptWithoutRow` | internal/platform/idempotency/idempotency.go:98-129 | An attempt that finds no row can always run: a handler that returns nil leaves the row, one that fails takes it back. |
| `DedupeProtocol.AttemptWithRow` | internal/platform/idempotency/idempotency.go:98-110 | An attempt that finds a row is skipped, and one whose INSERT fails leaves no trace. |
| `DedupeProtocol.HandledOnceAndForAll` | internal/platform/idempotency/idempotency.go:106-129 | After a handler returned nil, along every run: the row of its key stays, no call of the key is in its handler, and every further attempt is skipped. |
| `DedupeProtocol.RunnableExactlyWhenUnowned` | internal/platform/idempotency/idempotency.go:98-110 | An attempt runs its handler if and only if no call owns the key and neither a failed DELETE nor a crash left its row behind. |
| `DedupeProtocol.FailureMakesRetryRunnable` | internal/platform/idempotency/idempotency.go:112-126 | A handler failure whose DELETE succeeded makes the next attempt runnable. |
| `DedupeProtocol.SkipMeansOwnedUnlessStuck` | internal/platform/idempotency/idempotency.go:106-110 | A skipped attempt means "done or in other hands" if and only if the key is not stuck. |
| `DedupeProtocol.FailedDeleteLosesTheEvent` | internal/platform/idempotency/idempotency.go:113-124 | A concrete run in which a failed DELETE makes the retry skip an event nobody ever handled. |
| `DedupeProtocol.CrashLosesTheEvent` | internal/platform/idempotency/idempotency.go:98-112 | A concrete run in which a crash mid-handler makes the retry skip an event whose handler never returned. |
| `DedupeProtocol.RetryAfterCrash` | internal/platform/idempotency/idempotency.go:98-130 | After the process of a call died at any moment, a retry runs the handler if and only if the dedupe row was not in the table then; mid-handler it always is. |
| `DedupeProtocol.StuckForever` | internal/platform/idempotency/idempotency.go:98-124 | Once a failed DELETE or a crash left a row behind, no attempt made later ever runs the handler. |
| `DedupeProtocol.KeysAreIndependent` | internal/platform/idempotency/idempotency.go:98-102 | A step of another event or group neither sees nor changes what a key sees. |
| `DedupeProtocol.RunsOfKeysAreIndependent` | internal/platform/idempotency/idempotency.go:93-130 | Over every run, a key sees exactly the run of its own steps: dropping all steps of other events and groups changes nothing for it. |
| `RestIdempotency.RecordingIsFaithful` | internal/platform/idempotency/rest/middleware.go:239-267 | The body recorded is the body sent, and a status that is recorded is the status sent, for every sequence of handler calls. |
| `RestIdempotency.RecorderIsTransparent` | internal/platform/idempotency/rest/middleware.go:239-267 | Without informational statuses the client cannot tell the recorder from the plain writer. |
| `RestIdempotency.RecorderKeepsStatus` | internal/platform/idempotency/rest/middleware.go:252-259 | The status the client gets is the one the handler means if and only if the handler does not open with an informational status, or means 200 anyway. |
| `RestIdempotency.RecordedExactlyWhenRecordable` | internal/platform/idempotency/rest/middleware.go:172-178 | A response is recorded if and only if the handler does not open with an informational status and means a status from 200 to 499. |
| `RestIdempotency.RecordableResponse` | internal/platform/idempotency/rest/middleware.go:239-267 | What is recorded of such a handler is its status and all the bytes it wrote, in order, and the client was sent the same. |
| `RestIdempotency.HintedOkRunsAgain` | internal/platform/idempotency/rest/middleware.go:154 | A concrete handler, 103 then 200, whose client gets 200 and whose retry runs it again, because nothing was recorded. |
| `RestIdempotency.EarlyHintsLoseTheStatus` | internal/platform/idempotency/rest/middleware.go:252-259 | A concrete handler, 103 then 404, whose client gets 200 through the recorder. |
| `RestIdempotency.SetAllRestores` | internal/platform/idempotency/rest/middleware.go:206-208 | Replaying the recorded headers restores each allow-listed one and touches no other. |
| `RestIdempotency.MemoryStore.Lookup` | internal/platform/idempotency/rest/store.go:96-108 | Finds exactly the unexpired entries and drops an expired one. |
| `RestIdempotency.MemoryStore.Save` | internal/platform/idempotency/rest/store.go:113-124 | Stores under the key with the TTL, 24 hours for a TTL of zero or less. |
| `RestIdempotency.RecordingResponseWriter.Write` | internal/platform/idempotency/rest/middleware.go:261-267 | Body bytes go to the record and to the client. |
| `RestIdempotency.PickHeaders` | internal/platform/idempotency/rest/middleware.go:269-278 | The loop collects exactly the allow-listed, non-empty headers in order. |
| `RestIdempotency.Middleware.constructor` | internal/platform/idempotency/rest/middleware.go:100-108 | A TTL of zero or less becomes 24 hours. |
| `RestIdempotency.Middleware.Replay` | internal/platform/idempotency/rest/middleware.go:205-217 | Recorded headers, hash and replay marker, status and body go out. |
| `RestIdempotency.Middleware.Handle` | internal/platform/idempotency/rest/middleware.go:110-168 | The imperative middleware does to store and client what the request function says that the results below are about: 400, 409, replay, pass-through or a recorded run. |
| `RestIdempotency.UnreadableIsRefused` | internal/platform/idempotency/rest/middleware.go:122-126 | A keyed request gets a fresh 400, runs nothing and leaves the store alone if and only if its body cannot be read or is over 1 MiB. |
| `RestIdempotency.WithoutKey` | internal/platform/idempotency/rest/middleware.go:112-120 | Without a key the store is left alone; the handler runs and answers with its own status and bytes, or 400 is answered if a key is required. |
| `RestIdempotency.KeptFields` | internal/platform/idempotency/rest/middleware.go:154-162 | What is stored for a key, field by field: status, digest, bytes, time and expiry; no other key is touched. |
| `RestIdempotency.LiveExactlyWhenRecorded` | internal/platform/idempotency/rest/middleware.go:130-167 | After any run a key can be found if and only if it could be before, or some request of the run recorded under it within the TTL. |
| `RestIdempotency.RunsExactlyWhenNothingRecorded` | internal/platform/idempotency/rest/middleware.go:130-167 | Over every run from an empty store: a keyed request runs its handler if and only if no earlier request of its key ran, was recordable and was stored within the TTL. |
| `RestIdempotency.RecordingAnswers` | internal/platform/idempotency/rest/middleware.go:135-149 | Whatever comes in between, a recording answers every later request of its key within the TTL: same digest replayed, any other refused, no handler run. |
| `RestIdempotency.ConflictIsRefused` | internal/platform/idempotency/rest/middleware.go:136-145 | Over every run: another body under a recorded key gets 409 as a problem document and runs nothing for as long as the recording lives. |
| `RestIdempotency.AnswersAreInvisible` | internal/platform/idempotency/rest/middleware.go:122-149 | A request that runs no handler, be it a refusal, a conflict or a replay, can be struck from the run and every other reply stays the same. |
| `RestIdempotency.ServeRecorded` | internal/platform/idempotency/rest/middleware.go:151-152 | The handler run through the recording writer. |
| `RestIdempotency.ServeDirect` | internal/platform/idempotency/rest/middleware.go:118 | The handler run without a key. |
| `RestIdempotency.EvictionIsUnobservable` | internal/platform/idempotency/rest/store.go:103-106 | One request cannot tell the evicting store from a map that never forgets. |
| `RestIdempotency.RunRefinesTimedMap` | internal/platform/idempotency/rest/middleware.go:110-168 | Neither can any sequential run: same replies, same handler runs. |
| `RestIdempotency.StaysLiveOverRun` | internal/platform/idempotency/rest/middleware.go:130-148 | An entry stays in the store, unchanged, until it expires, whatever requests come between. |
| `RestIdempotency.ReplayIsExact` | internal/platform/idempotency/rest/middleware.go:85-89 | Over every run: once a request ran a recordable handler, the same key and body within the TTL gets the exact status and bytes first sent, which are the handler's own, and the handler does not run. |
| `RestIdempotency.OnlyFinalClientOutcomesRecorded` | internal/platform/idempotency/rest/middleware.go:172-178 | Along every run from an empty store, only statuses 200 to 499 are ever in the store. |
| `RestIdempotency.ReplayedHeaders` | internal/platform/idempotency/rest/middleware.go:205-217 | Over every run: a replay carries an allow-listed header as first sent if and only if the handler left its value alone after its first write. |
| `RestIdempotency.LateHeaderIsReplayed` | internal/platform/idempotency/rest/middleware.go:163 | A concrete handler that sets Location after it has begun its body: the first reply lacks the header, the replay carries it. |
| `RestIdempotency.ReplayIsMarked` | internal/platform/idempotency/rest/middleware.go:209-210 | Over every run: a replay carries Idempotent-Replay: true and the digest of the body as Idempotency-Hash. |
| `RestIdempotency.CuratedHeaders` | internal/platform/idempotency/rest/middleware.go:37 | Content-Type, Link, Location and X-Request-Id are restored by a replay, and no other header. |
| `RestIdempotency.ReplayCarriesTheCurated` | internal/platform/idempotency/rest/middleware.go:205-217 | Over every run: those four headers are replayed as the handler left them, and no other header of the first response is. |
| `RestIdempotency.SettledHeadersAreReplayed` | internal/platform/idempotency/rest/middleware.go:205-217 | Over every run: headers set before the first write only are replayed as first sent, whatever the second response held before. |
| `AmqpPublisher.StepKeepsHandoff` | internal/platform/messaging/amqp/queue.go:178-215 | Every step keeps who waits for whom between factory and publisher. |
| `AmqpPublisher.StepKeepsWindow` | internal/platform/messaging/amqp/queue.go:263-348 | Every step keeps the one-message window: the input is read exactly when nothing is buffered or unconfirmed. |
| `AmqpPublisher.StepKeepsLosses` | internal/platform/messaging/amqp/queue.go:297-335 | Every step keeps "at most one message abandoned per session". |
| `AmqpPublisher.StepKeepsSent` | internal/platform/messaging/amqp/queue.go:314-323 | Every step keeps "in input order, none twice". |
| `AmqpPublisher.StepKeepsConfirmed` | internal/platform/messaging/amqp/queue.go:297-312 | Only a message that went out is ever acked or nacked. |
| `AmqpPublisher.StepKeepsInv` | internal/platform/messaging/amqp/queue.go:178-348 | All of these together. |
| `AmqpPublisher.RunKeepsInv` | internal/platform/messaging/amqp/queue.go:178-348 | Over every run. |
| `AmqpPublisher.WindowNeverBlocks` | internal/platform/messaging/amqp/queue.go:338-346 | In every reachable state buffered + unconfirmed <= 1, reading is off exactly when it is 1, and `pending <- body` has room. |
| `AmqpPublisher.PublisherAccounting` | internal/platform/messaging/amqp/queue.go:249-348 | Messages go out in input order and once; each one read is acked, nacked, in the window, or abandoned; a session abandons at most one, and only once it has ended. |
| `AmqpPublisher.SettledIsFinal` | internal/platform/messaging/amqp/queue.go:263-348 | A settled message stays settled, and the number of times it was sent never changes again. |
| `AmqpPublisher.FailedPublishIsTheOnlySend` | internal/platform/messaging/amqp/queue.go:323-335 | When a Publish fails, it was the first and only send of its message. |
| `AmqpPublisher.FailedPublishIsLost` | internal/platform/messaging/amqp/queue.go:327-335 | After a failed Publish, in every continuation the message stays lost and is never sent again: the failed send is the only one there is. |
| `AmqpPublisher.FailedPublishHappens` | internal/platform/messaging/amqp/queue.go:263-335 | A run from the start that loses the first message this way. |
| `AmqpPublisher.LostExactlyWhen` | internal/platform/messaging/amqp/queue.go:297-335 | A step loses a message if and only if it is the failure of its Publish, or the end of the confirm channel with that message in the window. |
| `AmqpPublisher.ConfirmedExactlyWhen` | internal/platform/messaging/amqp/queue.go:297-312 | A step acks a message if and only if it sees a positive confirmation with that message in flight, and nacks it if and only if it sees a negative one. |
| `AmqpPublisher.ConfirmationComesFromTheBroker` | internal/platform/messaging/amqp/queue.go:297-305 | A confirmation in the channel is what the broker last said. |
| `AmqpPublisher.RoundTrip` | internal/platform/messaging/amqp/queue.go:296-346 | An idle session can always read a message, publish it once, and settle it as the broker answers. |
| `AmqpPublisher.DroppedSessionEnds` | internal/platform/messaging/amqp/queue.go:298-305 | A session whose channel the broker drops ends, and the next one can be asked for. |
| `AmqpPublisher.UnconfirmedSessionEnds` | internal/platform/messaging/amqp/queue.go:279-281 | A session without publisher confirms ends before it has read anything. |
| `AmqpPublisher.ClosedInputEnds` | internal/platform/messaging/amqp/queue.go:338-342 | Once the input is closed, an idle session ends the publisher. |
| `AmqpPublisher.FactoryStopsWhen` | internal/platform/messaging/amqp/queue.go:185-231 | The factory stops only when cancelled, and while redialling only after a failed dial. |
| `AmqpPublisher.HandoffNeverDeadlocks` | internal/platform/messaging/amqp/queue.go:173-211 | Publisher waiting on its session while the factory offers another never happens; every session channel taken is answered by its own session. |
| `AmqpPublisher.DialFailuresChain` | internal/platform/messaging/amqp/queue.go:221-234 | Any number of failed dials only counts up. |
| `AmqpPublisher.TakenIsAnswered` | internal/platform/messaging/amqp/queue.go:178-234 | However many dials fail first, a taken session channel is answered by the next fresh session. |
| `AmqpPublisher.StoppingStrandsExactlyTheParked` | internal/platform/messaging/amqp/queue.go:197-211 | A factory that stops strands the publisher if and only if the publisher was parked on its session channel. |
| `AmqpPublisher.StrandedForever` | internal/platform/messaging/amqp/queue.go:197-203 | A stranded publisher never moves again. |
| `AmqpPublisher.CancelDuringRedialStrands` | internal/platform/messaging/amqp/queue.go:197-203 | A concrete run that strands it: cancellation between two failed dials. |
| `SpanTree.SortIsStable` | internal/web/trace.go:136 | Sorted by start time, equal starts in input order. |
| `SpanTree.SortKeepsDistinctIds` | internal/web/trace.go:136 | Sorting keeps ids distinct and adds no span. |
| `SpanTree.KidsInOrder` | internal/web/trace.go:156-164 | The children of an id are exactly the spans that name it as parent, in order. |
| `SpanTree.RootsInOrder` | internal/web/trace.go:156-164 | The roots are exactly the spans without a parent in the list, in order. |
| `SpanTree.WalkIsPreorderPrefix` | internal/web/trace.go:178-205 | For every list, cycles and duplicate ids included, the walk renders the first `budget` lines of the preorder below a span. |
| `SpanTree.WalkFromIsPreorderPrefix` | internal/web/trace.go:166-170 | The same for siblings that share the budget. |
| `SpanTree.SubtreeIsDistinct` | internal/web/trace.go:178-205 | With distinct ids no span occurs twice below another. |
| `SpanTree.ForestIsDistinct` | internal/web/trace.go:166-170 | Nor in the trees of siblings. |
| `SpanTree.SubtreeIsComplete` | internal/web/trace.go:178-205 | Every descendant occurs in the preorder of its ancestor. |
| `SpanTree.ForestIsComplete` | internal/web/trace.go:166-170 | Every span reachable from a root occurs in the preorder of the roots. |
| `SpanTree.RenderingIsReachableOnce` | internal/web/trace.go:166-170 | Spans rendered are reachable from a root and rendered once. |
| `SpanTree.RenderingIsComplete` | internal/web/trace.go:166-170 | If the limit was not reached, every reachable span is rendered. |
| `SpanTree.RenderedCount` | internal/web/trace.go:166-174 | With distinct ids the count is min(max(limit, 0), number of spans reachable from a root). |
| `SpanTree.SubtreeIsDrawn` | internal/web/trace.go:178-205 | Every line below a span is drawn as its parent links say. |
| `SpanTree.RenderingIsDrawn` | internal/web/trace.go:182-205 | Every rendered line, by parent links alone: roots at the margin without a branch, the corner for the last child of a parent and the tee for the others, two cells of indentation and three more for each ancestor in between, with a bar unless that ancestor is a last child. |
| `SpanTree.Renderer.Emit` | internal/web/trace.go:182-199 | One line, the counter up by one, and the indentation of the children. |
| `SpanTree.Renderer.WalkSpan` | internal/web/trace.go:178-205 | The recursive walk over the shared counter appends exactly the lines of the preorder prefix, and terminates for every list by the remaining budget. |
| `SpanTree.Renderer.WalkKids` | internal/web/trace.go:201-204 | Its loop over the children. |
| `SpanTree.Renderer.WalkRoots` | internal/web/trace.go:166-170 | The loop over the roots. |
| `SpanTree.GroupByParent` | internal/web/trace.go:151-164 | The maps built in the loops are the children and roots of the list. |
| `SpanTree.RenderSpanTree` | internal/web/trace.go:126-176 | The lines are the rendering of the sorted list; the overflow line announces the spans left out, and with distinct ids rendered + announced = all. |
| `SpanTree.DurationBar` | internal/web/trace.go:211-233 | Always `width` cells, full cells first, with ink in proportion to the duration, never none and never too much. |
| `SpanTree.InkMeans` | internal/web/trace.go:211-220 | No ink for no duration, at least one eighth and at most the whole bar otherwise, the whole bar for the longest, and in proportion in between. |

## Left out

- InventoryConcurrency.ConcurrentConservation: `CreateProduct` is one atomic step here, because its existence check runs outside its transaction (`internal/inventory/service.go:103-130`) and a late creator could write available = 0 over produced stock; database deadlocks appear as aborts.
- InventorySerial.ConcurrentRunsAreSerial: `CreateProduct` is one atomic step here too; the replayed pass of a Fill covers as many rows as its batch held, which the code bounds by 100 and by the rows it could see.
- InventoryService.Service.Valid: the other methods assume that no product was registered under the empty SKU, which the HTTP layer checks (`internal/inventory/dto.go:61-67`); what such a product would do to a fill is `InventoryTables.EmptySkuFill`.
- InventoryService.Service.GetProductInventory: the cache property is sequential, because `FillReserves` publishes and invalidates before its outer commit.
- InventoryService.Service.PublishInventory: the Kafka emitter and the subscriber channels have no effect on tables or cache and are not modelled; with the Redis cache, only failures are modelled, not its own expiry.
- CommandHandling.Consumer.Poll: fetch errors, offset commits and crashes of the process are not modelled here (for crashes see `DedupeProtocol`); redelivery is any repetition of records. A write to the dead-letter topic that fails is only logged by the code and reads as dead-lettered.
- CommandHandling.Consumer.Dispatch: one consumer of one group; pruning does not run during a dispatch.
- DedupeProtocol.OneHandlerAtATime: pruning is not a step; a handler whose process died counts as no longer in flight.
- RestIdempotency.Middleware.Handle: the in-memory store, whose lookup and save never fail, and requests one after the other; the key comes trimmed; a stored status of 0 cannot occur.
- RestIdempotency.RecordingIsFaithful: the recorder's buffer and the client's connection never fail to take a write.
- AmqpPublisher.PublisherAccounting: message contents, headers, routing and tracing spans.
- SpanTree.RenderSpanTree: a line is its span index, prefix and branch; the kind, bar and name columns, the longest duration that scales the bars, and the conversion from Jaeger's JSON are not modelled. The walk's builder and counter are fields of `Renderer` instead of arguments passed along, and its two loops are methods.
- SpanTree.Renderer.Emit: the kind, bar, duration and name columns of the line are not modelled.
- SpanTree.DurationBar: cells are counted in eighths, not drawn as glyphs.
- Integer widths: quantities are unbounded integers; overflow of int64, of INTEGER columns and of durations is not modelled.
- HTTP routing, JWT, users, configuration, secrets, tracing, metrics, generated clients, templates and demo code: plumbing.
- The rate limiter: its arithmetic is in a Redis script.
- The Subscribe side of the AMQP package, session heartbeats and the cleanup ticker.
