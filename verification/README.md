# Verification of a webhook delivery platform

A Dafny model of a webhook platform that delivers events at least once from a PostgreSQL queue, and of
the receivers that its demo points at it: two "banks" fed the same stream of trades, one naive and one
correct. The proofs go from single operations up to one statement about the whole system: however many
workers crash, race, retry, redrive or post twice, and however many acknowledgements get lost, the
correct bank moves the money of every logged trade exactly once.

Check everything with `dafny verify dfyconfig.toml`.

## What is in it

| file | models |
|---|---|
| `Prelude.dfy` | options, time, a few facts about sequences and sets |
| `Backoff.dfy` | retry delays: capped exponential backoff with bounded jitter |
| `Worker.dfy` | the worker's session: recover leases, claim, post, record, retry or dead-letter, throttle |
| `WorkerLoop.dfy` | the endless loop around it: one transaction per tick, committed or rolled back |
| `Queue.dfy` | any number of workers, redrive requests and ingestions at once, step by step; invariant and serial system |
| `Guarantees.dfy` | what the queue guarantees over every run |
| `Fairness.dfy` | no starvation, with a bound |
| `Starvation.dfy` | the exact condition of that bound |
| `Drive.dfy` | one delivery driven to its end: a receiver that fails first, redrives, the fast-forward loop |
| `Ingestion.dfy` | idempotent ingestion: lookup, fan-out, savepoint, lost race, re-read |
| `Ledger.dfy` | money, trades and account rows of both banks |
| `NaiveBank.dfy` | the naive bank: unlocked read, pause, blind write |
| `SafeBank.dfy` | the correct bank: verify, dedupe, lock, apply, commit, then acknowledge |
| `Text.dfy` | decimals, integers and ISO timestamps as text, and code-point order |
| `TradeLog.dfy` | the producer's trades, the bank's parser, the SQL aggregate, the reconciliation |
| `EndToEnd.dfy` | event log, queue and correct bank in one system; exactly-once money |
| `LostAck.dfy` | a complete run of that system with a lost acknowledgement, a crash and a duplicate |
| `Keyset.dfy` | cursors, one page of the delivery list, the client that follows cursors |
| `Inbox.dfy` | the received-requests tail that is pruned on every insert |
| `Signing.dfy` | the signature header: printing, parsing, age, comparison |

Code that changes things in place is modelled by classes and methods with loops (`Worker.Session`,
`WorkerLoop.Loop`, `SafeBank.Bank`, `NaiveBank.Bank`, `Ingestion.Service`, `Inbox.Inbox`), each proved
against a function on values. Concurrency is modelled on those values: a state, a set of enabled steps, and
runs that are arbitrary interleavings of them.

## How the database is modelled

Transactions run at READ COMMITTED. A transaction sees the committed rows under its own writes, and
holds the rows it has written until it ends. `FOR UPDATE SKIP LOCKED` passes over rows that others
hold; `FOR UPDATE`, plain updates and inserts of a unique key wait for their holder; an insert that
meets a committed duplicate fails or, with ON CONFLICT DO NOTHING, does nothing. Any transaction may
abort at any step, which covers crashes, exceptions, lock timeouts and deadlock victims. The clock
readings, random draws and HTTP outcomes are free inputs of the steps.

The worker's transaction is as long as in the code: recovery, claim and the whole batch of posts, so a
rollback forgets attempts whose posts have already happened, and the receiver may see them again.

Redrive is modelled more finely than one atomic step: the handler reads and checks the row in one step
and writes it, unlocked, in a later one.

## Where code and expectation differ

- Succeeded is not final. Two redrive requests can both read a dead-lettered delivery; after the first
  one's retry has succeeded, the second one's write puts the delivery back to pending
  (`Guarantees.StaleRedriveReopens` constructs the run). `Guarantees.SucceededFinalIff` gives the exact
  condition: a succeeded delivery stays so in everything that can follow if and only if no redrive request
  holds it.
- The bound on waiting has the same exception. A stale redrive can move a waiting delivery past the moment
  it was due, and `Starvation.BoundedWaitIff` says that this is the only way the bound can fail. The bound
  counts the rows that join late: an ingestion or a redrive reads its clock before it waits for a lock, so it
  can commit a row that was due before those already waiting (`Starvation.LateArrivalDelays`).
- The fast-forward loop stops only at dead-lettered, not at success: against an accepting receiver it posts
  the same delivery again in every round (`Drive.FastForwardRepeatsSuccess`).
- A comment in `app/services/event_ingestion.py` (lines 77 to 80) says that the fan-out SELECT autoflushes. The
  session factory in `app/db/session.py` (line 21) turns autoflush off, and the model follows the code. The
  order of `begin_nested` and `add` is what matters, and `Ingestion.AddBeforeLeaks` shows the leak when it
  is reversed.
- The oracle of the reconciliation and the bank's parser can disagree: an unknown side, a missing name or
  timestamp, or fractions of a cent are counted by one only (`TradeLog.UnknownSideDiffers`,
  `TradeLog.OnlyTheLogCounts`, `TradeLog.FractionOfCentIsLost`). `TradeLog.AgreeIff` and `TradeLog.LogAgreesIff` say
  exactly for which payloads and logs they agree before the oracle rounds its sum; what the producer writes is
  among them. `TradeLog.RoundedAgreesIff` says which differences the rounding hides.

## Model

| member | source | states |
|---|---|---|
| `Backoff.NextAttemptAt` | app/worker/backoff.py:18-20 | the retry lies between the capped delay and 1.1 times it after now, and never more than 1.1 times the cap away |
| `Backoff.NextAttemptWithin` | app/worker/backoff.py:18-20 | after failed attempt n the retry waits for the smaller of base * 2^(n-1) and the cap, and at most a tenth more |
| `Backoff.EveryWaitIsDrawn` | app/worker/backoff.py:19 | every wait in that range is reached by some draw |
| `Backoff.DelaysNondecreasing` | app/worker/backoff.py:18 | delays never shrink from one attempt to a later one |
| `Backoff.TotalWaitBounds` | app/worker/backoff.py:18-20 | for any random draws the scheduled waits sum to between S and 1.1 S, S being the sum of the capped delays |
| `Backoff.SumDelaysClosedForm` | app/worker/backoff.py:18 | S is at most base * (2^n - 1), with equality if and only if no delay reaches beyond the cap |
| `Worker.RecoverOnce` | app/worker/delivery_worker.py:92-103 | recovery changes exactly the in-flight rows whose lease has passed, leaves none behind, costs no attempt and keeps when a row is due; repeating it with a later clock is recovering once |
| `Worker.Session.SelectDue` | app/worker/delivery_worker.py:62-79 | the answer is distinct pending rows whose time has come, earliest first, at most the limit, and no such row is passed over for a later one |
| `Worker.Session.ClaimDueDeliveries` | app/worker/delivery_worker.py:44-89 | exactly the selected rows become in flight, leased and stamped with the claimer |
| `Worker.Session.ProcessDelivery` | app/worker/delivery_worker.py:106-240 | the next attempt is recorded with its answer, times and worker; the row succeeds exactly on 200 to 299, dead-letters exactly on a refused URL or a failure at the limit, and otherwise waits for its retry; on a taken attempt number nothing changes |
| `Worker.Session.PostNext` | app/worker/delivery_worker.py:259-265 | one round of the batch loop keeps: each posted row has its own reply, posts are ordered and throttled, sleeps plus endpoints seen is the number posted |
| `Worker.Session.PostAll` | app/worker/delivery_worker.py:258-265 | every row of the batch gets exactly its own reply; each post starts when the one before has finished, plus the pause of an endpoint sent to before, so posts to a limited endpoint start at least 1/rate apart; sleeps = batch size minus distinct endpoints |
| `Worker.Session.RunOnce` | app/worker/delivery_worker.py:253-266 | one tick turns the table into the serial batch on a proper answer of the claim query, and never hits the attempt constraint on a gapless table |
| `Worker.Pace` | app/worker/delivery_worker.py:258-264 | a send pauses exactly when its endpoint was already seen in the batch, for exactly the pause of that endpoint |
| `Worker.BatchKeepsAccounted` | app/models/delivery_attempt.py:30-36 | a batch keeps attempt numbers gapless, so the next number is always free |
| `WorkerLoop.Loop.Tick` | app/worker/__main__.py:72-84 | a tick commits a whole legal batch or leaves the table as it was |
| `WorkerLoop.Loop.Run` | app/worker/__main__.py:55-86 | any sequence of failing and committing ticks amounts to a legal serial log, and after ceil(r / batch size) commits every row that was due has been attempted |
| `Queue.CompleteTx` | app/worker/delivery_worker.py:253-266 | what a finished worker transaction sees is its whole batch applied to the committed table, whatever was committed meanwhile |
| `Queue.TxFrame` | app/worker/delivery_worker.py:75 | commits by others of rows a transaction has not locked do not disturb it |
| `Queue.StepKeepsInv` | app/worker/delivery_worker.py:62-89 | every step of every participant keeps: locks disjoint, private writes = partial serial run, committed table = replay of the log |
| `Queue.RunKeepsInv` | app/worker/__main__.py:72-84 | the same for every reachable state |
| `Guarantees.Serializable` | app/worker/__main__.py:72-84 | in every run the committed table equals the committed batches, redrives and ingestions run whole, one after another, in commit order, each legal where it runs |
| `Guarantees.ClaimsDisjoint` | app/worker/delivery_worker.py:62-79 | no delivery is claimed by two open transactions, and their locks never overlap |
| `Guarantees.InFlightIsPrivateAndLeased` | app/worker/delivery_worker.py:81-84 | an in-flight row inside a transaction carries that transaction's lease and worker |
| `Guarantees.CommitRow` | app/worker/delivery_worker.py:200-230 | what each kind of commit does to any single row |
| `Guarantees.AttemptAccounting` | app/worker/delivery_worker.py:128-197 | attempt numbers are exactly 1..attempt_count, one per committed claim, and with R redrives the count is at most M + R, and less while pending |
| `Guarantees.OpenAttemptsWithinLimit` | app/worker/delivery_worker.py:81-84 | the same for every row inside an open transaction: gapless, at most M + R, and less while pending or in flight |
| `Guarantees.AttemptsAreAnswers` | app/worker/delivery_worker.py:184-197 | in every run the attempt rows of a delivery are the answers that the committed batches got for it, in commit order, with the times and worker of their batch; the delivery carries the worker of the last one |
| `Guarantees.LastAttemptDecides` | app/worker/delivery_worker.py:170-230 | in every run a succeeded delivery was last answered 200 to 299, a dead-lettered one refused or failed at the limit; without a redrive in both directions, and nothing is attempted after a success |
| `Guarantees.PostNeverConflicts` | app/models/delivery_attempt.py:30-36 | no post in any run hits the unique attempt number |
| `Guarantees.NoLostWork` | app/worker/delivery_worker.py:200-230 | no step of any run drops a delivery or changes its event or endpoint; committed rows are pending without lease, succeeded or dead-lettered |
| `Guarantees.AbandonedRowComesBack` | app/worker/delivery_worker.py:92-103 | a leased row left in flight is due again at the first tick after its lease, and is attempted or left pending |
| `Guarantees.SucceededFinalIff` | app/routers/deliveries.py:150-156 | in every reachable state a succeeded delivery is succeeded in every continuation of the run if and only if no redrive request holds it |
| `Guarantees.SucceededStays` | app/worker/delivery_worker.py:200-201 | without such a request the row itself never changes again |
| `Guarantees.HolderReopens` | app/routers/deliveries.py:153-156 | a request that holds a succeeded delivery can write at once, and makes it due |
| `Guarantees.ReadersReadDeadLetters` | app/routers/deliveries.py:150-152 | a redrive request only ever holds a delivery that was dead-lettered when it was read |
| `Guarantees.StaleRedriveReopens` | app/routers/deliveries.py:150-156 | a run of thirteen steps from the empty table, for every configuration, in which a succeeded delivery becomes pending and due again |
| `Guarantees.RetrySpacing` | app/worker/delivery_worker.py:222-230 | in every run, without a redrive, attempt n + 1 starts at least the n-th capped delay after attempt n finished |
| `Fairness.TickHelps` | app/worker/delivery_worker.py:69-75 | a tick that leaves out a row due by t has taken a full batch of rows due by t out of the queue |
| `Fairness.LoneStep` | app/worker/delivery_worker.py:62-89 | with one loop, every step of every participant leaves no committed row in flight and commits, if anything, one legal change; its batches were claimed at t or later |
| `Fairness.KeepsServing` | app/worker/delivery_worker.py:69-75 | while a row due at t waits, every step keeps an open tick from passing it over for rows due after t, whatever is redriven or ingested between the claim and the commit |
| `Fairness.OthersKeepDue` | app/routers/deliveries.py:153-156 | a redrive of another row, or an ingestion, lengthens the queue of rows due by t by no more than the rows it commits with such a due time |
| `Fairness.NoStarvation` | app/worker/delivery_worker.py:69-75 | in every run, from any state between two ticks of the one loop, a row due at t is attempted within ceil((r + a) / batch size) committed ticks, r rows being due by t and a committed later with a due time by t, unless a redrive request already holds it; the clocks of redrives and ingestions are free |
| `Starvation.BoundedWaitIff` | app/worker/delivery_worker.py:69-75 | that bound holds over all continuations with one loop, whatever redrives and ingestions commit and when they read their clocks, if and only if no redrive request holds the row |
| `Starvation.StaleRedriveStarves` | app/routers/deliveries.py:153-156 | from every reachable state in which a request holds the row, the run can go on with any number of ticks that never attempt it, and with no late row |
| `Starvation.BoundFails` | app/routers/deliveries.py:150-156 | such a state is reached from the empty table, for every configuration |
| `Starvation.LateArrivalDelays` | app/services/event_ingestion.py:73-118 | the late rows must be counted: with batches of one, an ingestion that read its clock early is committed, and the next tick takes its row instead of the one that was alone in the queue |
| `Drive.RedriveDelivery` | app/routers/deliveries.py:143-158 | 404 without the row, 409 unless dead-lettered, otherwise due now without a lease; every refusal changes nothing |
| `Drive.SettleEnds` | tools/configurable_receiver.py:121-125 | against a receiver whose first F requests fail, a pending delivery left alone ends succeeded at attempt F + 1 or dead-lettered at its limit, each attempt with the answer to its own request |
| `Drive.RedriveArithmetic` | app/routers/deliveries.py:143-158 | against a receiver failing F times: success without redrive if F < M; otherwise exactly redrive F - M + 1 succeeds, at attempt F + 1, every earlier one ends dead-lettered |
| `Drive.RedriveArithmeticInRuns` | tools/configurable_receiver.py:121-125 | the same in every run of all workers, redrive requests and ingestions in which the row's posts are committed and get the receiver's answers in order: after R redrives dead-lettered means M + R attempts and R <= F - M, succeeded means F + 1 attempts and R = max(0, F + 1 - M) |
| `Drive.DrivenStep` | app/worker/delivery_worker.py:106-240 | every step keeps that, and keeps the receiver's count equal to the committed attempts plus the one post under way |
| `Drive.FastForward` | app/services/showcase.py:586-592 | the loop does up to M attempts until dead-lettered, touches no other row, and reports dead-lettering exactly |
| `Drive.FastForwardDeadLetters` | app/services/showcase.py:586-592 | if every post fails it ends dead-lettered after exactly max(1, M - a) attempts |
| `Drive.FastForwardRepeatsSuccess` | app/services/showcase.py:586-589 | if every post is accepted it still posts in every round |
| `Ingestion.Service.IngestEvent` | app/services/event_ingestion.py:57-157 | a request with nobody in between does what the sequential service does: a known key gives the cached answer or 409 and writes nothing; otherwise, with or without a key, the event gets one delivery per target, and a record if it has a key |
| `Ingestion.StepKeepsInv` | app/services/event_ingestion.py:57-147 | every step of every request keeps the committed rows equal to serving the finished requests one by one |
| `Ingestion.Linearizable` | app/services/event_ingestion.py:110-147 | in every run, with first inserters that abort, rows and replies are those of the finished requests served alone in the order they finished |
| `Ingestion.OneEventPerKey` | app/models/idempotency.py:28-32 | one event and one record per key, with exactly the deliveries promised; every reply is the winner's event and count, and 409 if and only if the body differs from the winner's |
| `Ingestion.EveryEventIsDelivered` | app/services/event_ingestion.py:98-151 | in every run each finished request without a key, or first with its key, has its event with exactly one delivery for each endpoint it found; there are no other events; every reply names an event and its number of deliveries |
| `Ingestion.ReReadFinds` | app/services/event_ingestion.py:136-141 | after losing the race the re-read always finds a record |
| `Ingestion.LoserLeaks` | app/services/event_ingestion.py:110-118 | with the objects added before the savepoint, every loser commits its event and deliveries beside the winner's |
| `Ingestion.AddBeforeLeaks` | app/services/event_ingestion.py:110-118 | a run of thirteen steps that ends that way |
| `NaiveBank.Bank.ApplyTrade` | app/services/showcase_ledger.py:143-183 | alone, a call credits the trade and stamps its status, without regard to repetition or timestamp |
| `NaiveBank.AloneIsOneCall` | app/services/showcase_ledger.py:159-183 | the four steps of a call, uninterrupted, are that call |
| `NaiveBank.BalanceIsChain` | app/services/showcase_ledger.py:159-183 | in every interleaving the balance is the start plus the deltas along the last writer's reads-from chain, short of the full sum by exactly what the chain skipped |
| `NaiveBank.StatusIsLastCommitted` | app/services/showcase_ledger.py:172-182 | in every run the status and its time are those of the last committed trade, whenever that was executed |
| `NaiveBank.ChainAndLost` | app/services/showcase_ledger.py:172-182 | kept and lost deltas add up to every committed delta, with multiplicity |
| `NaiveBank.NoOverlapNoLoss` | app/routers/showcase_ledger.py:180-193 | when calls for an account never overlap, the balance is the full sum, redeliveries included |
| `NaiveBank.TwoWritersLoseOne` | app/services/showcase_ledger.py:179 | from any quiet state with an existing account row two deliveries for that account can run so that the first one's delta is lost |
| `SafeBank.Bank.ApplyTrade` | app/services/showcase_ledger.py:191-231 | a known event id changes nothing; a new one is recorded and applied to its account under the timestamp guard |
| `SafeBank.Bank.Receive` | app/routers/showcase_ledger.py:200-267 | 503 when down, 401 unverified, 400 without event id or trade, each without any effect; otherwise the trade of a new event is applied, and the answer is 200 when healthy and 500 when flaky |
| `SafeBank.CommitApplied` | app/services/showcase_ledger.py:216-230 | the lock makes a handler's commit the serial application of its trade |
| `SafeBank.StepKeepsInv` | app/services/showcase_ledger.py:207-231 | every step keeps processed and applied in agreement, locked rows current, held ids unprocessed |
| `SafeBank.Linearizable` | app/routers/showcase_ledger.py:239-267 | all handlers together act like one handler serving the answered requests in commit order, with the same statuses |
| `SafeBank.ExactlyOnce` | app/models/demo.py:135-149 | in every interleaving with duplicates and rollbacks the processed ids are the applied ones, each once, and each balance is the start plus their deltas |
| `SafeBank.AckedIsProcessed` | app/routers/showcase_ledger.py:252-267 | a 200 is only ever given for a processed event |
| `SafeBank.OnlyVerifiedMovesMoney` | app/routers/showcase_ledger.py:215-267 | in every run each answer has the status of its mode and request, and every applied trade was that of a verified request, answered 200 or 500 by a bank that was not down |
| `SafeBank.LockFindsRow` | app/services/showcase_ledger.py:216-224 | the locking SELECT always finds its row |
| `SafeBank.FoldBalance` | app/services/showcase_ledger.py:226 | the balance after a list of trades is the start plus the deltas of the account's trades |
| `SafeBank.StatusIsLatest` | app/services/showcase_ledger.py:226-229 | the status is that of the latest-executed applied trade, on a tie of the one applied first |
| `SafeBank.RunsConverge` | app/services/showcase_ledger.py:207-229 | two runs with any orders, repetitions, refusals and aborts that have processed the same events end with the same balance and status timestamp for every account, and the same row when timestamps are distinct |
| `SafeBank.OrderDoesNotMatter` | app/services/showcase_ledger.py:226-229 | any two orders of the same applied trades end with the same balance and timestamp, and the same status when timestamps are distinct |
| `SafeBank.StatusNeverMovesBack` | app/services/showcase_ledger.py:227-229 | along every run the status timestamp only moves forward |
| `Text.IsoOrder` | producer/trades.py:39-40 | code-point order of UTC timestamps is time order, although zero microseconds are omitted |
| `Text.IsoRoundTrip` | producer/trades.py:39-40 | a written UTC timestamp reads back as itself |
| `TradeLog.MoneyRoundTrip` | producer/trades.py:64 | a printed amount matches the numeral pattern of the SQL filter and has its own value |
| `TradeLog.PlainIff` | app/services/showcase_ledger.py:292 | the numerals counted are one digit or more, then nothing, or a point and one digit or more |
| `TradeLog.PositivePriceIsProper` | producer/trades.py:43-67 | at a positive price the producer only writes nonnegative amounts with an account and a UTC timestamp |
| `TradeLog.ParseBuilt` | app/services/showcase_ledger.py:105-126 | the bank's parser recovers account, signed amount and time of every producer-built trade |
| `TradeLog.BuiltDescription` | app/services/showcase_ledger.py:120-125 | the description of a producer-built trade is its side, its amount in dollars and its symbol |
| `TradeLog.ParsedExactly` | app/services/showcase_ledger.py:105-119 | a payload is a trade exactly with a name, a known side, a nonnegative amount within the precision and a time with its offset |
| `TradeLog.OrderReachesBank` | producer/trades.py:43-67 | what the producer builds for an order reaches the bank with its account, its time and quantity times price, signed, to half a cent; it raises only beyond 28 digits |
| `TradeLog.OracleAgrees` | app/services/showcase_ledger.py:281-295 | on every list of producer-built trades the SQL sum and count per account are those of the parsed trades |
| `TradeLog.MaxIsLatest` | app/services/showcase_ledger.py:289 | the text MAX is the timestamp of the chronologically latest trade of the account |
| `TradeLog.AgreeIffSameAmount` | app/services/showcase_ledger.py:281-295 | for any payload and library, aggregate and bank agree on every account if and only if they read the same amount from it |
| `TradeLog.AgreeIff` | app/services/showcase_ledger.py:105-126 | in terms of the guards of both, for any payload and library: counted with an amount and recognised with that amount in whole cents; or adding nothing, and refused or read as nothing |
| `TradeLog.GuardOfOneText` | app/services/showcase_ledger.py:105-126 | when SQL and Python spell the amount alike, a counted payload passes if and only if the amount is zero, or the payload is recognised and the amount is whole cents within the precision |
| `TradeLog.LogAgreesIff` | app/services/showcase_ledger.py:281-295 | on any log the aggregate, before rounding, equals the bank's sum for every account after every event if and only if every payload passes that guard |
| `TradeLog.RoundedAgreesIff` | app/services/showcase_ledger.py:309 | the rounded aggregate equals the bank's sum if and only if they differ by less than half a cent, or by half a cent that rounds to the even side |
| `TradeLog.SalePassesGuard` | producer/trades.py:43-67 | every producer-built payload passes the guard |
| `TradeLog.UnknownSideDiffers` | app/services/showcase_ledger.py:111-112 | a payload that fails it: counted by the aggregate, rejected by the parser |
| `TradeLog.OnlyTheLogCounts` | app/services/showcase_ledger.py:111-119 | more of them, for any amount: an empty name, a name that is a number, no timestamp |
| `TradeLog.FractionOfCentIsLost` | app/services/showcase_ledger.py:114 | 0.004 is counted by the aggregate and read as nothing by the bank |
| `TradeLog.ExpectedFromEventLog` | app/services/showcase_ledger.py:273-313 | the dictionary holds exactly the accounts of the log with their aggregates; it raises if and only if a sum exceeds the decimal precision |
| `TradeLog.SortNames` | app/services/showcase_ledger.py:343 | the names of a set in strictly ascending order |
| `TradeLog.AccountLine` | app/services/showcase_ledger.py:344-363 | one account's line: the bank's balance or the opening balance, the opening balance plus the aggregate, the first minus the second as drift, and stale exactly when the status is earlier than the log's latest; or the exception when the two times cannot be compared |
| `TradeLog.BuildBankView` | app/services/showcase_ledger.py:329-374 | one such line per known account in name order; the total is the sum of absolute drifts and is zero if and only if no account drifts |
| `TradeLog.TotalZeroIff` | app/services/showcase_ledger.py:364 | drifts of opposite sign never cancel |
| `TradeLog.TotalAbsAdds` | app/services/showcase_ledger.py:364 | totals add up over the lines, each line giving its drift without the sign |
| `EndToEnd.StepKeepsInv` | app/worker/delivery_worker.py:170-240 | every step of event log, queue and bank keeps: applied trades are logged ones, succeeded bank deliveries are backed by processed events |
| `EndToEnd.SucceededIsProcessed` | app/routers/showcase_ledger.py:252-267 | every succeeded delivery to the bank, committed or about to be, has its event processed |
| `EndToEnd.AppliedIsLogged` | app/services/showcase_ledger.py:207-231 | what the bank has applied to an account is what the log says of the events it has processed |
| `EndToEnd.DriftIsUnprocessed` | app/services/showcase_ledger.py:343-348 | in every reachable state an account's drift is exactly minus the deltas of the logged trades not yet processed |
| `EndToEnd.AllProcessed` | app/services/showcase_ledger.py:316-326 | when every logged trade was fanned out and no bank delivery is pending, in flight or dead-lettered, every logged trade is processed |
| `EndToEnd.BalancesMatchLog` | app/services/showcase_ledger.py:346-348 | in that state every balance is the start plus the deltas of the logged trades, each counted once |
| `EndToEnd.StatusUpToDate` | app/services/showcase_ledger.py:359-361 | when bank and log hold the same events, an account's status timestamp is the log's latest timestamp of that account, and comparing the two neither raises nor finds the status stale |
| `EndToEnd.StatusIsLatestSale` | app/services/showcase_ledger.py:226-229 | in that state every account with sales shows side, amount, symbol and time of a latest one |
| `EndToEnd.ExactlyOnceMoney` | app/services/showcase_ledger.py:329-374 | in that state the reconciliation of producer-built trades does not raise, shows zero drift and no stale status on every account, zero total drift, and each account shows its latest sale |
| `EndToEnd.ViewIsBacklog` | app/services/showcase_ledger.py:343-364 | in every reachable state the drift shown for an account is minus the money of its logged trades not yet processed, the total is the sum of these without signs, and a status is shown as stale if and only if a logged trade is later than all processed ones |
| `LostAck.LostAckRun` | app/routers/showcase_ledger.py:254-266 | for every trade and configuration there is a run from the empty database with a crash after the bank's commit, a committed 500, a retry and a 200, every request handled while a worker holds the delivery; it ends with nothing left, two recorded attempts, three requests, and the trade credited once |
| `Keyset.CursorRoundTrip` | app/routers/_pagination.py:12-23 | a cursor decodes to the key it was made from and is never empty |
| `Keyset.DecodeIff` | app/routers/_pagination.py:17-23 | a cursor is read exactly when it decodes to a time and an id around its first bar |
| `Keyset.SelectNewest` | app/routers/deliveries.py:101-102 | the n newest keys of a set, newest first |
| `Keyset.ListDeliveries` | app/routers/deliveries.py:45-113 | 422 exactly for a limit outside 1 to 200, a reversed range or an unreadable cursor; otherwise the newest rows of the project that pass every filter and are older than the cursor, by time and then id, with a next cursor exactly when more remain |
| `Keyset.SortedUnique` | app/routers/deliveries.py:101 | there is only one way to list a set of keys newest first |
| `Keyset.FetchAll` | benchmark/runner.py:141-156 | following the cursors of a fixed table returns all matching rows, newest first, each once, in max(1, ceil(n / limit)) requests |
| `Keyset.PagesIsCeil` | benchmark/runner.py:145-155 | that number of requests is the rounded-up quotient |
| `Keyset.WalkMissesNothing` | benchmark/runner.py:145-155 | with any inserts, deletes and changes between requests the rows come strictly descending, and every row there and matching throughout comes |
| `Inbox.TopOfTop` | app/services/showcase.py:470-480 | pruning before the next arrival keeps the same rows as never having pruned |
| `Inbox.ShortListing` | app/services/showcase.py:483-494 | a listing no longer than the kept tail cannot tell that anything was pruned |
| `Inbox.PrunedIs` | app/services/showcase.py:470-480 | the inbox holds exactly the recorded requests with fewer than 20 newer ones of the same endpoint, unchanged |
| `Inbox.Inbox.RecordReceivedRequest` | app/services/showcase.py:440-480 | after any sequence of recordings every endpoint keeps exactly the 20 newest of everything recorded for it |
| `Inbox.Inbox.ListInbox` | app/services/showcase.py:483-494 | every listing of at most 20 rows is that of the full history |
| `Signing.VerifySignature` | app/worker/signing.py:47-75 | each verdict exactly under its condition: missing or empty header, `t` or `v1` missing, unreadable timestamp, more than 300 seconds away, and valid only when `v1` is the digest of this timestamp and body |
| `Signing.OnlySignedIsValid` | app/worker/signing.py:47-75 | whatever the header, it is accepted only with a timestamp within 300 seconds and the digest of that timestamp, a dot and the body under the secret |
| `Signing.SplitJoins` | app/worker/signing.py:51 | splitting loses nothing and leaves no separator in a part |
| `Signing.LastPartWins` | app/worker/signing.py:50-54 | a key's value is that of the last part that names it; parts without '=' name nothing |
| `Signing.HeaderParts` | app/worker/signing.py:26-54 | the header parser undoes the header printer |
| `Signing.HeaderRoundTrip` | app/worker/signing.py:26-75 | a built header is accepted exactly when the clock is within 300 seconds of its timestamp, and called too old otherwise |
| `Signing.OtherBody` | app/worker/signing.py:71-73 | under that header another body is accepted only if its digest is the same |
| `Signing.CanonicalInjective` | app/worker/signing.py:22 | the signed string determines the timestamp and the body |

## Left out

- HTTP, sockets, LISTEN/NOTIFY, polling sleeps, logging, metrics and FastAPI wiring: inputs and outputs of the steps only.
- SHA-256, HMAC, base64, UUIDs, JSON encoding and Decimal parsing: function parameters with only the facts the proofs need; each set of facts is shown to be satisfiable. Equal body hashes stand for equal bodies.
- The SSRF check: the outcome `Blocked`, which dead-letters without a post.
- API keys, project and endpoint management, migrations, cascading deletes, seeding, the idle watchdog, the dashboard and the demo scripts: plumbing. Endpoints are not deleted during a run.
- The Discord transform, the demo event generator, the price tracker, `TradeGenerator` and latency statistics: shallow or random.
- Floating point: seconds and rates are reals, so float rounding and overflow for very large attempt numbers are not modelled. A rate limit is given by its pause, 1 / rate.
- The status `failed` exists and is never written.
- Drive.FastForward: the fast-forward loop (app/services/showcase.py:571-592), which locks one row and attempts it up to M more times whatever its status, is no step of `Queue`. The guarantees about runs, the attempt limit and the finality of success among them, hold for runs without it; against an accepting receiver it adds M attempts (`Drive.FastForwardRepeatsSuccess`).
- Drive.RedriveArithmeticInRuns: the receiver counts the requests of one delivery only, and a rolled-back batch that has posted the delivery is excluded, because the receiver's count then runs ahead of the recorded attempts.
- Fairness.NoStarvation: one worker loop; with several, a row skipped because another one holds it is not counted.
- Queue: recovery waits for all its rows at once, and the claim query sees one snapshot of the committed rows; the rechecking of single rows inside PostgreSQL is not modelled.
- Worker.Session.ProcessDelivery: response bodies, durations and error texts of attempts are dropped; start and finish times of posts are kept instead.
- Inbox.Inbox.RecordReceivedRequest: recordings are serial; two handlers that prune at the same time are not modelled, and the truncation of long bodies is dropped.
- Ingestion: the model has one project and takes the fan-out query's answer as an input.
- Text.IsoOrder: code-point collation is assumed for the SQL MAX, and UTC datetimes only; other offsets and naive datetimes are not compared.
- TradeLog.ParseBuilt: quantity times price is exact; rounding of products beyond 28 digits is not modelled.
- TradeLog.ExpectedFromEventLog: amounts of type numeric(18,2) do not overflow; NaN amounts are not modelled.
- EndToEnd.ExactlyOnceMoney: assumes that only the platform signs, so a verified request carries a logged event with its own payload, and that a 2xx seen by a worker was given by the bank.
- SafeBank.Bank.Receive: an unknown stored mode, which the code reads as healthy, is not modelled; the body text of the answers is dropped.
- Keyset.FetchAll: items are represented by their keys (creation time and id); the remaining columns follow from the id.
- EndToEnd.StepKeepsInv: a request may reach the bank at any time, which allows more runs than the platform has; only `LostAck.LostAckRun` places requests inside the worker's transaction.
- Signing.HeaderRoundTrip: holds for timestamps that print and read back; Python refuses integers beyond 4300 digits.
- Signing.VerifySignature: non-ASCII signatures, for which the comparison raises, and other texts that `int` accepts are left to the library parameters.
