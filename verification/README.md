# A verified model of the TPC-C benchmark server

The server answers TPC-C requests over HTTP on top of FoundationDB. Each NewOrder or Payment
request is a heap context that travels through a chain of callbacks: read rows one future at a
time, buffer writes, commit, and on any error let the client library reset the transaction and
start the chain again. Rows live in one flat, ordered byte key space. A second path hands work to
worker threads through lock-free single-producer single-consumer rings. This project models that
code in Dafny and proves what it does over every run.

## What is modelled

* **The callback chains over an optimistic store.** `Chains` has one function per callback of
  NewOrder and Payment; `NewOrderHandler` and `PaymentHandler` are the same callbacks as
  `tpcc_new_order.c` and `tpcc_payment.c` run them, on a mutable context, key buffers and a
  transaction handle, each method proved to do what its function says. `Engine` interleaves any
  number of chains with any pattern of failures over FoundationDB's contract, which is taken as
  given: a transaction reads the snapshot of its read version through its own writes, a commit is
  applied only if no key it read has been written since, `on_error` forgets reads and writes, and
  a commit may be applied and still be reported as failed. `Futures` is the part of
  `fdb_database.c` that hands over and releases futures.
* **What the runs do to the database.** `Serial` says, independently of the chains, what one
  request does to the tables. `Serializability` proves that every run ends in the serial execution
  of the committed requests in commit order, and `RealTime` that this order respects the order in
  which requests arrive and finish. `Attribution`, `ExactlyOnce`, `Replies`, `Ownership`, `Stranding`
  and `Work` cover requests, responses, contexts, futures and the number of callbacks. `Reactions`
  says what every callback does next from its future alone, and `Completion` what an attempt without
  errors ends with. `Money`,
  `Inventory`, `Orders`, `Numbering`, `Histories` and `Readiness` are about serial executions, and
  `Theorems` carries their results over to runs. `Counterexamples` has small inputs on which intended
  properties fail. `Repaired` shows what one changed line would give.
* **The byte key space.** `Keyspace`, `KeyFormats` and `KeyBuilders` are the keys, their order and
  the code that builds them, `Rows` and `Layouts` the packed row structs, byte by byte. `FlatStore` proves that the machine on bytes and the machine on rows
  make the same steps. `StockLevel` is the range scan and its counting loop, `Updates` the
  `/updates` chain over the World table.
* **The ring and the worker pool.** `Ring` takes `spsc_ring.c` one atomic load, slot access or
  store at a time, with counters that wrap at 2^64; `Pool` puts N of these rings under a
  dispatcher and N worker threads, including shutdown; `PoolAccounts` says where every item is, and
  `RoundRobin` counts who gets the calls. `RingProgress` and `PoolProgress` are about progress: calls
  return, items are executed, workers stop.
  `SpscRing` and `WorkerPool` are the same code as heap objects, for calls that are not
  interrupted.

An event that is not enabled leaves the state of a machine unchanged, so every list of events is a
run. The clock, the random generator, request parameters, allocation failures and the decisions of
the cluster are inputs. C integers are unbounded integers reduced explicitly to their width; signed
overflow, which C leaves undefined, is modelled as wrap-around. Struct members are little-endian,
as the handlers store them on the hosts the server is built for.

## Where code and documentation differ

The model follows the code.

* NewOrder takes its order id from the district row and advances a separate counter that nothing
  reads. Ids are reused: `IdsReused`, `IdsCollide`. Payment rebuilds the district row from zeros,
  so the first payment into a district sets its order id to 0: `IdsUsed`.
* When an id is reused, lines of an earlier, longer order stay behind a shorter one:
  `LineCountRight`, `OrdersCollide`.
* A stock row's order count and year-to-date figure are overwritten, not added to:
  `OrderCountRight`, `YtdRight`, `StockCountersWrong`.
* Payments add to the district of the customer, not to the home district, so a warehouse and its
  districts drift apart by the remote payments: `ImbalanceMoves`, `RemotePaymentImbalance`.
* Two payments of a customer within one second share one history row, and history falls behind the
  warehouse totals: `HistoryMatchesWarehouses`, `SameSecondLosesHistory`.
* The scan of StockLevel begins one key too early and ends one key too early: `StockLevelCounts`,
  `StockLevelRight`, `MissesTheOnlyItem`.
* `/updates` answers with its rows even when the commit failed, and with every number it drew for an
  id that it drew twice: `ReplyAfterCommit`, `FailedCommitMisreported`, `RepeatedIdMisreported`.
* A future that cannot be submitted leaves its request without an answer: `StrandedIff`,
  `UnansweredRequest`.
* `rfd/0009-fdb-keyspace-design.md` and `tpcc_kv.h` announce network byte order in row values and
  an empty new_order value; the code stores host order and a single zero byte.

## Model

| member | source | states |
|---|---|---|
| Serializability.RunsAreSerial | src/handlers/tpcc_new_order.c:51-272 | After any run of any number of chains, with any conflicts, failures and unknown commits, the database is the serial execution of the committed requests in commit order, and each of them finds the rows it needs. |
| RealTime.FinishedComesFirst | src/handlers/tpcc_new_order.c:219-251 | If a request is finished before another one arrives, all its commits precede the other's in that order, in every run. |
| Serializability.AttemptsAreFresh | src/handlers/tpcc_new_order.c:253-272 | What any attempt is about to commit is what its request does to the snapshot that attempt read, and all rows this depends on are in its conflict set; nothing left over from an aborted attempt gets in. |
| Serializability.CommitIsCurrent | src/fdb_database.c:144-154 | A commit that passes the conflict check is also what its request does to the database at commit time, not only to its snapshot. |
| Serializability.RunKeepsInv | src/handlers/tpcc_payment.c:42-228 | The invariant behind both: stage by stage, a context holds the values of its own snapshot and has read the rows they come from. |
| Serial.EffectDependsOnReads | src/handlers/tpcc_payment.c:104-182 | The writes of a transaction depend on the store only through the rows it reads. |
| Attribution.CommitsServeRequests | src/handlers/tpcc_new_order.c:219-283 | The log holds for the i-th request only transactions with that request's parameters; once the request is finished, exactly one if it was answered with 200 and none otherwise, plus one per commit with an unknown result. |
| Attribution.RunsAreAttributed | src/handlers/tpcc_payment.c:240-292 | No callback of any run changes a request's parameters; a payment by id keeps its customer. |
| ExactlyOnce.ResponsesTellTheTruth | src/handlers/tpcc_payment.c:184-238 | The number of commits of a finished request, from its response and its unknown commits. |
| ExactlyOnce.FireStatus | src/handlers/tpcc_new_order.c:219-283 | A callback answers 200 exactly when it is given a successful commit. |
| Replies.RepliesConfirmCommits | src/handlers/tpcc_new_order.c:230-246 | Every 200 has a commit in the log that its body describes: an order stored under the number reported, which was the district's next order id at that commit, or a payment of the amount reported. |
| Replies.RunsStayTruthful | src/handlers/tpcc_payment.c:194-207 | The invariant behind it: whenever a commit is pending, what the success callback would report is what is buffered. |
| Ownership.RunsAreLinear | src/fdb_database.c:76-105 | In every run: at most one outstanding future per context, none for a finished one; response, destroying the transaction and freeing the context happen together and once; each future and each wrapper is released exactly once, on the failure paths too. |
| Stranding.StrandedIff | src/fdb_database.c:84-105 | In every run a live context has no outstanding future if and only if its latest submission, the first one of the request included, failed. |
| Stranding.LiveContextsAwait | src/fdb_database.c:84-105 | So if every submission succeeds, a live context always has an outstanding future. |
| Stranding.FailedSubmissionStrands | src/fdb_database.c:84-105 | A context whose latest submission failed is stranded: no later event of any run frees it or answers its request. |
| Stranding.UnansweredRequest | src/handlers/tpcc_payment.c:288-291 | A request whose first read gets no future is never answered. |
| Ownership.QuietForever | src/fdb_database.c:76-82 | A context without an outstanding future, freed or stranded, is never called back or changed by any later event. |
| Work.RunsAreBounded | src/handlers/tpcc_new_order.c:103-110 | A NewOrder that was reset r times runs at most (r + 1) (lines + 4) callbacks, a Payment at most 5 (r + 1), in every run. |
| Reactions.RunsReact | src/handlers/tpcc_new_order.c:51-272 | In every run, for every outstanding future: a failed read or report goes to `on_error`; a read answers if and only if the value is missing, unreadable or too short for its table, then with 500, and otherwise goes on; a successful commit answers 200; `on_error` starts over with the first read, or answers 503 if it failed itself. |
| Reactions.ReadReacts | src/handlers/tpcc_payment.c:42-126 | The part about reads, from the future alone, for every read of both chains and every number of lines: with its row it goes on to the next read in the chain's order or, after the last one, to the commit. |
| Reactions.CommitReacts | src/handlers/tpcc_new_order.c:219-251 | The part about commits: a failed one is answered by nobody and goes to `on_error`. |
| Reactions.ErrorReacts | src/handlers/tpcc_payment.c:214-228 | The part about `on_error`. |
| Reactions.RunsCanFire | src/fdb_database.c:76-82 | In every run every outstanding future can be delivered, a read at any version there is, except a commit before the cluster has decided it. |
| Completion.RequestsComplete | src/handlers/tpcc_new_order.c:51-331 | From any state of any run, a request of either kind that meets no error ends: with 200 and exactly its own commit as the new last entry of the log if every row it reads is there, and with 500 and an unchanged log otherwise; no other request is touched. |
| Completion.RetriesComplete | src/handlers/tpcc_new_order.c:219-272 | The same from any state in which a commit has failed: its report, `on_error` and one attempt without errors end like a first attempt. |
| Completion.EffectIff | src/handlers/tpcc_payment.c:53-125 | A transaction can be made if and only if every row that its chain reads, one by one, is there. |
| Chains.Fire | src/handlers/tpcc_new_order.c:108-217 | Every callback keeps the context valid (line index within the lines, arrays of full length), registers only callbacks of its own chain, and writes only right before a commit. |
| Chains.CustomerDraw | src/handlers/tpcc_payment.c:95-99 | The customer of a payment by name is the one between 2 and 3000 that leaves the same remainder by 2999 as the number drawn plus 2. |
| NewOrderHandler.Context.constructor | src/handlers/tpcc_new_order.c:287-331 | The zeroed context with the request's parameters and lines in its arrays. |
| NewOrderHandler.Context.OnDistrictRead | src/handlers/tpcc_new_order.c:51-79 | On the heap: a failed future goes to `on_error`, a value that is missing, unreadable or short answers 500, nothing else answers; context, transaction and next call become what the row machine says; a response frees context and transaction, nothing else does. |
| NewOrderHandler.Context.OnCustomerRead | src/handlers/tpcc_new_order.c:81-106 | The same for the customer read, which goes on to the first stock read or straight to the writes. |
| NewOrderHandler.Context.StartStockReads | src/handlers/tpcc_new_order.c:108-181 | Asks for the stock row of the current line; after the last line buffers all rows of the order and commits. |
| NewOrderHandler.Context.SetOrder | src/handlers/tpcc_new_order.c:110-169 | The bytes set in the transaction are the encoded rows of the order, in program order. |
| NewOrderHandler.Context.SetHead | src/handlers/tpcc_new_order.c:115-130 | The bytes of the order row, with customer, carrier -1, line count, all-local flag and second, and of the one-byte new_order marker. |
| NewOrderHandler.Context.SetLines | src/handlers/tpcc_new_order.c:132-145 | The loop sets line i + 1 for every line i, with its item, supplier, quantity and amount. |
| NewOrderHandler.Context.SetCounter | src/handlers/tpcc_new_order.c:147-156 | The counter key gets the encoded order id plus one. |
| NewOrderHandler.Context.SetStocks | src/handlers/tpcc_new_order.c:158-169 | The loop sets one stock row per line, from the quantities recorded while reading. |
| NewOrderHandler.Context.TakeStock | src/handlers/tpcc_new_order.c:202-215 | Records the topped-up quantity and the amount of the current line and moves on. |
| NewOrderHandler.Context.OnStockRead | src/handlers/tpcc_new_order.c:183-217 | The stock read of the current line, with its error paths. |
| NewOrderHandler.Context.OnCommit | src/handlers/tpcc_new_order.c:219-251 | Success answers 200 with the order number and frees; failure goes to `on_error` and answers nothing. |
| NewOrderHandler.Context.OnErrorRetry | src/handlers/tpcc_new_order.c:253-272 | Restarts at the first line with the read of its district row, or gives up with 503 if and only if `on_error` failed. |
| NewOrderHandler.Context.Finish | src/handlers/tpcc_new_order.c:274-283 | Answers, destroys the transaction and frees the context. |
| PaymentHandler.Context.constructor | src/handlers/tpcc_payment.c:240-292 | The context with the request's parameters. |
| PaymentHandler.Context.OnWarehouseRead | src/handlers/tpcc_payment.c:42-68 | As for NewOrder: it answers if and only if the future did not fail and its value is missing, unreadable or short, then with 500; otherwise it does what the row machine says, on the heap. |
| PaymentHandler.Context.OnDistrictRead | src/handlers/tpcc_payment.c:70-102 | Reads the customer's district; a payment by name draws a customer anew. |
| PaymentHandler.Context.OnCustomerRead | src/handlers/tpcc_payment.c:104-182 | Records the customer, buffers four rows and commits. |
| PaymentHandler.Context.SetRows | src/handlers/tpcc_payment.c:127-178 | The bytes set are the encoded warehouse, district, customer and history rows, in this order. |
| PaymentHandler.Context.SetWarehouse | src/handlers/tpcc_payment.c:130-136 | The warehouse row with the amount added, all else zero. |
| PaymentHandler.Context.SetDistrict | src/handlers/tpcc_payment.c:138-144 | The customer's district with the amount added, all else zero. |
| PaymentHandler.Context.SetCustomer | src/handlers/tpcc_payment.c:146-154 | The customer with balance, payments and payment count updated, all else zero. |
| PaymentHandler.Context.SetHistory | src/handlers/tpcc_payment.c:156-178 | The history row under warehouse, customer and the low 32 bits of the second. |
| PaymentHandler.Context.OnCommit | src/handlers/tpcc_payment.c:184-212 | Success answers 200 with the amount and frees; failure goes to `on_error`. |
| PaymentHandler.Context.OnErrorRetry | src/handlers/tpcc_payment.c:214-228 | Restarts with the read of its warehouse row, or gives up with 503 if and only if `on_error` failed. |
| PaymentHandler.Context.Finish | src/handlers/tpcc_payment.c:230-238 | Answers, destroys the transaction and frees the context. |
| Transactions.Transaction.Set | src/fdb_database.c:120-125 | Appends one write to the transaction's buffer. |
| Transactions.Transaction.SetRow | src/fdb_database.c:120-125 | Sets the encoded next row of a batch. |
| Futures.Client.Async | src/fdb_database.c:107-118 | A submission hands the future over or releases everything obtained so far, as in the row machine's ledger. |
| Futures.Client.SubmitFuture | src/fdb_database.c:84-105 | Which of future and wrapper are kept, destroyed and freed on each of its paths. |
| Futures.Client.FutureCallback | src/fdb_database.c:76-82 | Runs the callback, which may submit a successor, then releases the future and its wrapper. |
| Theorems.RunMoney | src/handlers/tpcc_payment.c:130-154 | Over every run no warehouse, district or customer row appears or disappears, each moves by what was paid into it, and each table's total by all that was paid if and only if no row overflows. |
| Theorems.RunBalances | src/handlers/tpcc_payment.c:146-154 | Over every run customer balances fall by all that was paid if and only if none underflows; balance plus payments of each customer never changes. |
| Theorems.RunConsistency | src/handlers/tpcc_payment.c:61-67 | Section 3.3.2.1 of TPC-C: the gap between a warehouse's total and the sum over its districts moves by the payments received less those of its districts' customers, so it stays when all payments are local. |
| Theorems.RunStock | src/handlers/tpcc_new_order.c:205-209 | Over every run each quantity stays between 10 and 100 and equals 10 + (q - 10 - taken) mod 91, independently of commit order; order count and year-to-date describe only the last order, with the exact conditions under which they are right. |
| Theorems.RunOrders | src/handlers/tpcc_new_order.c:112-145 | Section 3.3.2.5 of TPC-C, over every run: order row and new_order row exist together, the order's lines are those of the last request that placed it, and lines beyond them are left over from longer ones. |
| Theorems.RunLineCount | src/handlers/tpcc_new_order.c:115-145 | Over every run the lines stored under an order key are 1 to the stored count if and only if no longer order was placed under it. |
| Theorems.RunNumbering | src/handlers/tpcc_new_order.c:71-73 | No run moves a district's own next order id except to zero. |
| Theorems.RunCounter | src/handlers/tpcc_new_order.c:147-156 | Over every run the counter key holds one more than the id of the last order committed in the district. |
| Theorems.RunIdUsed | src/handlers/tpcc_new_order.c:71-73 | Over every run an order gets the district's initial id until a payment into the district is committed, and 0 from then on. |
| Theorems.RunIds | src/handlers/tpcc_new_order.c:71-73 | Over every run two orders of a district have different ids if and only if the first such payment comes between them and the initial id is not 0. |
| Theorems.RunHistories | src/handlers/tpcc_payment.c:156-178 | Over every run, for the whole table and each warehouse: stored amounts rise by all payments less the overwritten ones, and by all payments if and only if no two share warehouse, customer and second. |
| Theorems.RunHistoryMatches | src/handlers/tpcc_payment.c:130-178 | Section 3.3.2.8 of TPC-C over every run: history amounts and warehouse totals rise alike if and only if no second is shared. |
| Theorems.RunHistoryMatchesAt | src/handlers/tpcc_payment.c:130-178 | The same for each warehouse by itself. |
| Theorems.FlatStoreIsSerial | src/tpcc_kv.c:52-165 | Over any flat store and run, the committed bytes read as the tables that the committed requests produce one by one. |
| Tables.PaymentFrame | src/handlers/tpcc_payment.c:130-178 | A payment changes no row but its four. |
| Tables.OrderFrame | src/handlers/tpcc_new_order.c:112-169 | An order changes no row but its own, its counter and the stock it names. |
| Tables.OrderHeads | src/handlers/tpcc_new_order.c:115-156 | After an order: the order row holds the customer, carrier -1, the number of lines, 1 or 0 for all lines local, and the second; the marker is one zero byte; the counter is the id plus one. |
| Tables.OrderLines | src/handlers/tpcc_new_order.c:132-145 | Each line of an order is stored with its own item, supplier and quantity, and an amount of 100 times the quantity. |
| Tables.OrderStock | src/handlers/tpcc_new_order.c:158-169 | When several lines name one stock row, the last of them decides what is stored. |
| Money.MoneyRows | src/handlers/tpcc_payment.c:130-154 | Per row and list of requests: totals, balance and payment count after it, modulo their widths. |
| Money.BalancePlusPaid | src/handlers/tpcc_payment.c:149-154 | Balance plus payments of a customer is constant. |
| Money.TotalsRise | src/handlers/tpcc_payment.c:130-154 | A table's total rises by all payments if and only if no row overflows, and never by more. |
| Money.BalancesFall | src/handlers/tpcc_payment.c:149-154 | Total balance falls by all payments if and only if no row underflows. |
| Money.ImbalanceMoves | src/handlers/tpcc_payment.c:61-67 | The gap between warehouse and districts moves by the remote payments. |
| Money.LocalPayments | src/handlers/tpcc_payment.c:257-264 | With only local payments the two sides receive the same. |
| Inventory.RangeKept | src/handlers/tpcc_new_order.c:205-209 | Taking n keeps every quantity between 10 and 100 in that range if and only if n is at most 91. |
| Inventory.QuantityOnCircle | src/handlers/tpcc_new_order.c:205-209 | The top-up rule is subtraction on a circle of 91 quantities. |
| Inventory.StockQuantity | src/handlers/tpcc_new_order.c:158-169 | The quantity after any list of orders, in closed form; of duplicate lines only the last counts. |
| Inventory.CountersOverwritten | src/handlers/tpcc_new_order.c:163-168 | Order count and year-to-date of a stock row are 1 and the quantity of the latest order naming it. |
| Inventory.OrderCountRight | src/handlers/tpcc_new_order.c:163-168 | The order count grows by the number of orders naming the row if and only if none does or the sum is 1. |
| Inventory.YtdRight | src/handlers/tpcc_new_order.c:163-168 | The year-to-date grows by what was taken if and only if no order names the row, or the initial figure and all takings but the last cancel out; with positive quantities, if and only if at most one order does and finds zero. |
| Orders.OrderStructure | src/handlers/tpcc_new_order.c:112-145 | The rows of an order key after any list of requests, field by field. |
| Orders.LineCountRight | src/handlers/tpcc_new_order.c:115-145 | The lines stored are exactly 1 to the stored count if and only if no longer order was placed under the same id. |
| Numbering.DistrictIdFrozen | src/handlers/tpcc_payment.c:138-144 | The district's order id stays until the first payment into the district and is 0 from then on. |
| Numbering.IdsUsed | src/handlers/tpcc_new_order.c:71-73 | Each order gets the initial id before that payment and 0 after it. |
| Numbering.IdsReused | src/handlers/tpcc_new_order.c:71-73 | Two orders of a district have different ids if and only if the first such payment comes between them and the initial id is not 0. |
| Numbering.CounterFollowsLastOrder | src/handlers/tpcc_new_order.c:147-156 | The counter key holds one more than the id of the last order committed in the district. |
| Repaired.CounterCounts | src/handlers/tpcc_new_order.c:147-156 | With the id taken from the counter instead, the counter counts the orders. |
| Repaired.RepairedIdTaken | src/handlers/tpcc_new_order.c:71-73 | Then an order's id is the loaded counter plus the district's orders before it. |
| Repaired.RepairedIdsFresh | src/handlers/tpcc_new_order.c:71-73 | Two such ids make the same order key if and only if the number of orders between them is a multiple of 2^32, and ids increase until the counter passes 2^31. |
| Repaired.AdmittedIsSerial | src/handlers/tpcc_new_order.c:75-78 | With the counter among the rows read, every log that the conflict check admits is the serial execution of the repaired requests. |
| Repaired.AdmittedOrderIds | src/handlers/tpcc_new_order.c:115-125 | In every such log an order is stored under that id. |
| Histories.HistoryAccounts | src/handlers/tpcc_payment.c:156-178 | Stored amounts equal the initial ones plus all payments less what was overwritten. |
| Histories.HistoryComplete | src/handlers/tpcc_payment.c:162-178 | Nothing is lost if and only if no two payments share warehouse, customer and second, with each other or with the table. |
| Histories.HistoryMatchesWarehouses | src/handlers/tpcc_payment.c:130-178 | Unless a warehouse total overflows, history amounts and warehouse totals rise alike if and only if nothing is lost. |
| Histories.HistoryMatchesWarehouse | src/handlers/tpcc_payment.c:130-178 | The same for each warehouse by itself. |
| Readiness.ReadyStays | src/handlers/tpcc_new_order.c:62-69 | A request can run after others if and only if it could run before them. |
| Readiness.AllApplyIff | src/handlers/tpcc_payment.c:53-59 | A list of requests runs through if and only if each could run on the initial tables. |
| Counterexamples.IdsCollide | src/handlers/tpcc_new_order.c:71-73 | Two orders on a small warehouse, both number 3001. |
| Counterexamples.OrdersCollide | src/handlers/tpcc_new_order.c:132-145 | After them the order row counts six lines and a seventh is stored. |
| Counterexamples.StockCountersWrong | src/handlers/tpcc_new_order.c:163-168 | After them the stock row both name counts one order and half of what was taken. |
| Counterexamples.RemotePaymentImbalance | src/handlers/tpcc_payment.c:61-67 | One remote payment puts a warehouse ahead of its districts. |
| Counterexamples.SameSecondLosesHistory | src/handlers/tpcc_payment.c:162-178 | The same payment twice in one second leaves less on record than was paid. |
| Counterexamples.OverflowLosesMoney | src/handlers/tpcc_payment.c:130-136 | A payment into a warehouse with the largest total: the totals do not add up. |
| Keyspace.KeyOrder | src/tpcc_kv.c:52-165 | Byte order of encoded keys is tuple order, over all builders at once, names included. |
| KeyFormats.KeyFormat | src/tpcc_kv.c:52-165 | The bytes of every key: the text of its prefix, then its own columns in the builder's order, integers big-endian, names with their terminators, last name first. |
| KeyFormats.ColumnOrder | src/tpcc_kv.c:52-165 | Within one builder, byte order of keys is the lexicographic order of that builder's own columns: district after warehouse, first name after last name, line after order, and so on for each of them. |
| Keyspace.KeyInjective | src/tpcc_kv.c:52-165 | Different keys, of one table or of two, never share an encoding. |
| Keyspace.PrefixesDiverge | src/tpcc_kv.h:22-33 | No subspace prefix that a builder uses is a prefix of another. |
| Keyspace.OrderIndexDiverges | src/tpcc_kv.h:30 | The twelfth prefix, which no builder uses, diverges from all others, and no key lies behind it. |
| Keyspace.TextOrder | src/tpcc_kv.c:86-104 | NUL-terminated strings compare as the strings do, and never extend one another. |
| Keyspace.U32Order | src/tpcc_kv.c:14-20 | Big-endian integers compare as numbers. |
| Keyspace.U32RoundTrip | src/tpcc_kv.c:14-26 | Decoding an encoded key integer gives it back. |
| Keyspace.NextOidRoundTrip | src/tpcc_kv.c:28-50 | Every int32, negative ones included, survives the 8-byte counter. |
| Keyspace.NextOidSpells | src/tpcc_kv.c:28-38 | The eight bytes of the counter spell the number modulo 2^64, most significant byte first. |
| KeyBuilders.PutU32 | src/tpcc_kv.c:14-20 | Four big-endian bytes at an offset, everything else in the buffer unchanged. |
| KeyBuilders.Start | src/tpcc_kv.c:52-57 | The subspace prefix at the start of the buffer. |
| KeyBuilders.WarehouseKey | src/tpcc_kv.c:59-64 | The buffer holds the encoded key up to the returned length, and is unchanged behind it. |
| KeyBuilders.DistrictKey | src/tpcc_kv.c:66-73 | The same for district keys. |
| KeyBuilders.CustomerKey | src/tpcc_kv.c:75-84 | The same for customer keys. |
| KeyBuilders.CustomerNameKey | src/tpcc_kv.c:86-104 | The same for customer name keys, whose length depends on both strings. |
| KeyBuilders.ItemKey | src/tpcc_kv.c:106-111 | The same for item keys. |
| KeyBuilders.StockKey | src/tpcc_kv.c:113-120 | The same for stock keys. |
| KeyBuilders.OrderKey | src/tpcc_kv.c:122-131 | The same for order keys. |
| KeyBuilders.NewOrderKey | src/tpcc_kv.c:133-142 | The same for new_order keys. |
| KeyBuilders.OrderLineKey | src/tpcc_kv.c:144-156 | The same for order line keys. |
| KeyBuilders.NextOidKey | src/tpcc_kv.c:158-165 | The same for counter keys. |
| KeyBuilders.StockRangeBegin | src/tpcc_kv.c:167-174 | The begin of a stock range is the key of item 0. |
| KeyBuilders.StockRangeEnd | src/tpcc_kv.c:176-183 | The end of a stock range is the key of item 0xFFFFFFFF. |
| KeyBuilders.HistoryKey | src/handlers/tpcc_payment.c:162-178 | The same for the history key that Payment composes in place. |
| KeyBuilders.WorldKey | src/handlers/tfb_handlers.c:44-50 | The same for World keys. |
| Rows.PackField | src/tpcc_kv.h:57-143 | Every member of a packed struct reads back, modulo its width, at its offset. |
| Rows.RowRoundTrip | src/tpcc_kv.h:57-143 | What a handler writes into a row is what the next handler reads from its bytes. |
| Layouts.ColumnBytes | src/tpcc_kv.h:57-143 | Every column of an encoded row, at its place in the struct: the field's integer, modulo the column's width, or zeros where the handlers set nothing; the columns fill the row. |
| Layouts.ColumnReads | src/tpcc_kv.h:57-143 | Every field a handler sees in a stored value, of whatever bytes, is the integer in its column, cast as the source does. |
| Layouts.LongEnough | src/handlers/tpcc_payment.c:53-59 | A stored value passes for a row of its table if and only if it is at least as long as the struct. |
| FlatStore.ApplyRepresents | src/fdb_database.c:120-125 | Setting encoded rows in a flat store that reads as some tables gives one that reads as the updated tables. |
| FlatStore.TablesExist | src/tpcc_kv.h:22-33 | Every flat store, whatever else it holds, reads as some tables. |
| FlatStore.SameConflicts | src/fdb_database.c:144-154 | Conflicts on flat keys are conflicts on rows, both ways. |
| FlatStore.EffectFits | src/handlers/tpcc_new_order.c:112-169 | Every row a handler writes is of the kind that its table holds. |
| FlatStore.FlatRuns | src/fdb_database.c:107-167 | The machine that reads, writes and compares bytes makes exactly the steps of the machine on rows, and every version of its store reads as that machine's tables. |
| StockLevel.Context.OnRangeRead | src/handlers/tpcc_read_txns.c:157-201 | Counts the values that are long enough and low, answers, and frees; an error answers 503. |
| StockLevel.RangeIsStock | src/tpcc_kv.c:167-183 | Among well-formed keys the interval holds exactly the stock keys of the warehouse with an item id below 0xFFFFFFFF. |
| StockLevel.LowStockIs | src/handlers/tpcc_read_txns.c:175-182 | In terms of the tables, the low keys of the interval are the stock rows below the threshold. |
| StockLevel.LowStockCard | src/handlers/tpcc_read_txns.c:175-182 | In a store of well-formed keys the low keys are as many as the stock rows below the threshold. |
| StockLevel.ScanIs | src/fdb_database.c:127-142 | With the selectors passed, a key is scanned if and only if it is in the interval and not its highest key, or the last key before a non-empty interval. |
| StockLevel.CountIsCard | src/handlers/tpcc_read_txns.c:175-182 | The counter is the number of low keys in the answer. |
| StockLevel.StockLevelCounts | src/handlers/tpcc_read_txns.c:157-182 | The answer for every store: the low rows of the interval, less one if the highest is low, plus one if the key before it passes the length test and reads as low. |
| StockLevel.ByteCountRight | src/fdb_database.c:127-142 | The answer is the number of low keys of the interval if and only if it is empty or the two ends of the scan cancel out. |
| StockLevel.StockLevelRight | src/handlers/tpcc_read_txns.c:203-232 | Over well-formed keys the answer is the number of stock rows of the warehouse below the threshold if and only if there are none at all, or the highest item is low exactly when the key before the stock passes for a low row. |
| StockLevel.MissesTheOnlyItem | src/fdb_database.c:127-142 | A store with one stock row, below the threshold: the scan returns nothing. |
| StockLevel.TruncationLowers | src/handlers/tpcc_read_txns.c:170-173 | Ignoring `more` can only lower the count. |
| Updates.WorldId | src/handlers/tfb_handlers.c:39-42 | A random World id is the one between 2 and 10001 that leaves the same remainder by 10000 as the number drawn plus 2. |
| Updates.Context.constructor | src/handlers/tfb_handlers.c:401-433 | The ids are drawn independently. |
| Updates.Context.OnRead | src/handlers/tfb_handlers.c:359-399 | The index stays in bounds; each read fixes one number; after the last read the buffer holds the whole batch. |
| Updates.Context.DoWrites | src/handlers/tfb_handlers.c:342-357 | The loop sets every id of the batch to its number, in order. |
| Updates.Context.OnCommit | src/handlers/tfb_handlers.c:312-340 | Answers with all ids and numbers, whether or not the commit succeeded, and frees. |
| Updates.LastPositionWins | src/handlers/tfb_handlers.c:342-357 | After the commit a World row holds the number of the last position with its id. |
| Updates.OthersUnchanged | src/handlers/tfb_handlers.c:342-357 | No other key changes, in the World table or elsewhere. |
| Updates.ReplyIsStored | src/handlers/tfb_handlers.c:312-340 | After an applied batch a position of the reply agrees with the table if and only if it repeats the number of the last position with its id. |
| Updates.ReplyAfterCommit | src/handlers/tfb_handlers.c:312-340 | For either outcome of the commit: a position agrees with the table if and only if the batch was applied and it repeats that number, or it was not and the row already held its number. |
| Updates.DistinctIdsAgree | src/handlers/tfb_handlers.c:415-417 | Without repeated ids an applied batch is answered truthfully throughout. |
| Updates.RepeatedIdMisreported | src/handlers/tfb_handlers.c:415-417 | One id drawn twice with two numbers: the first position is wrong. |
| Updates.FailedCommitMisreported | src/handlers/tfb_handlers.c:312-316 | A failed commit on an empty table: the reply has a row that is not there. |
| Ring.Linearizable | src/spsc_ring.c:34-62 | Under every interleaving of the single loads, slot accesses and stores, with wrapping counters, the ring is a linearizable bounded FIFO queue: operations and calls correspond one to one, each takes effect between call and return on the item passed and with the result returned, and calls that do not overlap keep their order. |
| Ring.StepRefinesQueue | src/spsc_ring.c:36-60 | The linearization points: head store, tail load, tail store, head load. |
| Ring.RunKeepsLinInv | src/spsc_ring.c:34-62 | Counts stay within one capacity of each other and slots hold the queue, in every run. |
| RingProgress.PushWaitFree | src/spsc_ring.c:34-47 | From any state of any run, a push in progress has returned once its own thread has taken the steps it had left, at most five, whatever the consumer does. |
| RingProgress.PopWaitFree | src/spsc_ring.c:49-62 | The same for a pop, whatever the producer does. |
| Ring.MaskIsMod | src/spsc_ring.c:42-57 | A masked wrapping counter is the unbounded count modulo the capacity. |
| Ring.CountersDifference | src/spsc_ring.c:39-54 | Subtracting wrapped counters gives the true difference, and they are equal exactly when the counts are. |
| RingViews.SlotsNeverRace | src/spsc_ring.c:42-57 | The slot the producer is about to write is never the one the consumer is about to read, and both are in bounds. |
| RingViews.NullMeansEmpty | src/spsc_ring.c:49-62 | If NULL is never pushed, a pop returns NULL exactly when it found the queue empty. |
| RingViews.SizeForProducer | src/spsc_ring.h:45-50 | The size the producer sees is exact at its tail load. |
| RingViews.SizeForConsumer | src/spsc_ring.h:45-50 | The size the consumer sees is exact at its head load. |
| RingViews.SizeForOthers | src/spsc_ring.h:45-50 | A third thread sees the true difference if and only if the pops between its two loads did not overtake the loaded head; then it is at most the capacity, and otherwise more than the capacity until the pops are nearly 2^64 ahead. |
| RingViews.SizeUnderflows | src/spsc_ring.h:45-50 | A run in which it sees 2^64 - 1. |
| SpscRing.SpscRing.constructor | src/spsc_ring.c:24-32 | An empty ring over the caller's slots, for any capacity that passes the power-of-two test. |
| SpscRing.SpscRing.Push | src/spsc_ring.c:34-47 | Appends the item, or refuses exactly when the ring is full. |
| SpscRing.SpscRing.Pop | src/spsc_ring.c:49-62 | Removes the oldest item, or returns NULL exactly when the ring is empty. |
| SpscRing.SpscRing.Size | src/spsc_ring.h:45-50 | The number of items. |
| SpscRing.SpscRing.Empty | src/spsc_ring.h:53-56 | Whether there are none. |
| Words.PowerOfTwoTest | src/spsc_ring.c:27 | A positive number shares no bit with its predecessor if and only if it is a power of two. |
| Pool.PoolConserves | src/worker_pool.c:50-136 | In every run each worker has executed a prefix of its accepted items, in order, and freed those; no item is accepted twice or by two workers, and a rejected one by none. |
| PoolAccounts.EveryItemPlaced | src/worker_pool.c:110-136 | In every run each item that got memory is in exactly one place - in the dispatcher's hands, freed by it, or accepted by the worker whose turn it was - and nothing else is in any of them. |
| PoolAccounts.RunKeepsPlaced | src/worker_pool.c:119-135 | The invariant behind it, through every step of a push. |
| PoolProgress.WorkersProgress | src/worker_pool.c:50-68 | From any state of any run and under every interleaving, a worker whose flag is still set has executed and freed, in order, any number of the items its ring had accepted after eight of its own steps for each, plus one if it was not at its loop test. |
| PoolProgress.TurnExecutes | src/worker_pool.c:54-59 | Left alone with its flag set and an item in its ring, a worker is back at the test after eight steps, has executed and freed exactly the oldest item, and has left the others. |
| PoolProgress.TurnsExecute | src/worker_pool.c:54-65 | In n turns a worker left alone executes and frees the n oldest items, or all if there are fewer, as the heap method promises. |
| PoolProgress.WorkersStop | src/worker_pool.c:97-108 | Once its flag is cleared, a worker exits within eight of its own steps, under every interleaving. |
| PoolProgress.DispatchDecides | src/worker_pool.c:110-136 | From any state of any run, a dispatch that got memory has returned after five steps of the dispatcher, whatever the workers do; its item is with the worker whose turn it was, or freed, and not both. |
| PoolProgress.DispatchAlone | src/worker_pool.c:110-136 | A dispatch left alone appends its item to the ring of the worker whose turn it is, or frees it exactly when that ring is full, and changes nothing else, as the heap method promises. |
| Pool.DestroyAbandonsRings | src/worker_pool.c:97-108 | After shutdown exactly the items still in the rings, at most 1024 per worker, are left unexecuted. |
| Pool.RunKeepsPoolInv | src/worker_pool.c:50-136 | The invariant behind both: items are in a ring, in hand, or executed, and were routed by their call number. |
| RoundRobin.Balanced | src/worker_pool.c:110-118 | Over any window of calls two workers' shares differ by at most one if the counter does not wrap in it or the number of workers divides 2^64, and by at most two across one wrap. |
| RoundRobin.WrapCostsTwo | src/worker_pool.c:115-117 | With three workers the calls around the wrap go to the same one. |
| WorkerPool.WorkerPool.constructor | src/worker_pool.c:70-95 | One empty ring per worker, none shared. |
| WorkerPool.WorkerPool.Dispatch | src/worker_pool.c:110-136 | The worker whose turn it is gets the item at the end of its ring, or the call fails because the ring is full or memory is short; no other ring changes, a refused item is freed, and the turn passes either way. |
| WorkerPool.WorkerThread | src/worker_pool.c:50-68 | A worker executes the oldest items of its ring, each once and in order, one per turn it finds the flag set, and frees each. |

## Left out

- Chains.CustomerDraw: does not model the generator; its next value is an input, so a payment by name may pick any of its customers on each attempt.
- KeyBuilders.CustomerNameKey: requires a buffer that holds both strings, which the source does not check either.
- FoundationDB: its contract is assumed, as described above; its retry policy is an input.
- The C11 memory model: the steps of the ring and of the pool are sequentially consistent.
- Request generation: parameters are inputs. The generators take a remainder by zero for warehouse ids (`src/utility.c:12` called from `src/handlers/tpcc_new_order.c:301`), so what they yield is undefined.
- The counter `active_transactions`, which is only ever incremented.
- Shutdown, worker threads and dispatcher as concurrent heap code: interleavings are modelled on values in `Ring` and `Pool`; the classes `SpscRing` and `WorkerPool` are about uninterrupted calls.
- The engine's interleaving of chains is modelled on values; the handler classes cover one callback at a time.
- HTTP, JSON, sockets, start-up and argument parsing.
- OrderStatus and Delivery, which commit empty transactions.
- `/queries` and `/cached-worlds`; the other TechEmpower tests.
- The loader, the benchmark driver and the random distributions.
- Repaired.AdmittedIsSerial: takes the repaired callback chain as a list of admitted commits; the callbacks themselves are modelled only as they are in the source.
- Range builders for new_order and order_line keys, which no handler uses.
- Return messages from workers to the event loop.
- The error that `fdb_future_get_keyvalue_array` may return in StockLevel, which the handler ignores, and failing allocations of the two arrays of `/updates`.
