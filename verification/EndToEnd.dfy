/**
 * The whole system: producer-built trades in the event log, the delivery queue with any number of
 * crashing and racing workers and stale redrives, and the safe bank with its own concurrent
 * transactions. At-least-once delivery to a deduplicating receiver moves the money exactly once.
 */
module EndToEnd {
  import opened Prelude
  import opened Ledger
  import Worker
  import Queue
  import Guarantees
  import SafeBank
  import Text
  import TradeLog

  type EventId = nat

  /** A logged trade event: its id, and the trade its payload parses to. */
  datatype Event = Event(id: EventId, trade: Trade)

  datatype World = World(queue: Queue.Sys, bank: SafeBank.Sys, events: seq<Event>)

  datatype Label =
    | QueueStep(q: Queue.Label)
    | BankStep(b: SafeBank.Label)
    | Publish(events: seq<Event>, rows: map<Worker.Id, Worker.Delivery>)

  /** The settings of the workers and the bank's endpoint. */
  datatype Setup = Setup(cfg: Worker.Settings, bank: Worker.EndpointId)

  predicate Logged(events: seq<Event>, id: EventId, trade: Trade) {
    Event(id, trade) in events
  }

  ghost predicate DistinctEvents(events: seq<Event>) {
    forall i, j :: 0 <= i < j < |events| ==> events[i].id != events[j].id
  }

  /** Only the platform signs: a verified trade request carries a logged event and its trade. */
  predicate Honest(events: seq<Event>, req: SafeBank.Request) {
    req.verified && req.event.Some? && req.trade.Some? ==> Logged(events, req.event.value, req.trade.value)
  }

  /** A handler answered 200 for the event, and had committed before it did. */
  predicate Acked(bank: SafeBank.Sys, id: EventId) {
    exists i ::
      0 <= i < |bank.answers| && bank.answers[i].req.event == Some(id) && bank.answers[i].status == SafeBank.OK
  }

  /** A 2xx seen by a worker was given by the endpoint; everything else may be lost, repeated or made up. */
  predicate AnswersAreReal(u: Setup, w: World, l: Queue.Label) {
    l.Post? && l.w in w.queue.txs && Queue.CanPost(w.queue.table, w.queue.txs[l.w], l.reply) ==>
      var t := w.queue.txs[l.w];
      var row := Queue.View(w.queue.table, t).rows[t.ids[t.posted]];
      row.endpointId == u.bank && l.reply.outcome.Response? && 200 <= l.reply.outcome.code <= 299 ==>
        Acked(w.bank, row.eventId)
  }

  ghost predicate Enabled(u: Setup, w: World, l: Label) {
    match l
    case QueueStep(q) => Queue.Enabled(u.cfg, w.queue, q) && AnswersAreReal(u, w, q)
    case BankStep(b) => SafeBank.Enabled(w.bank, b) && (b.Receive? ==> Honest(w.events, b.req))
    case Publish(events, rows) =>
      DistinctEvents(w.events + events) && Queue.Enabled(u.cfg, w.queue, Queue.Ingest(rows))
  }

  ghost function Exec(u: Setup, w: World, l: Label): World
    requires Enabled(u, w, l)
  {
    match l
    case QueueStep(q) => w.(queue := Queue.Exec(u.cfg, w.queue, q))
    case BankStep(b) => w.(bank := SafeBank.Exec(w.bank, b))
    case Publish(events, rows) =>
      w.(queue := Queue.Exec(u.cfg, w.queue, Queue.Ingest(rows)), events := w.events + events)
  }

  const NO_ROWS := Worker.Table(map[])

  ghost predicate Run(u: Setup, states: seq<World>, labels: seq<Label>) {
    && |states| == |labels| + 1
    && states[0] == World(Queue.Sys(NO_ROWS, map[], map[], []), SafeBank.START, [])
    && forall i :: 0 <= i < |labels| ==>
      Enabled(u, states[i], labels[i]) && states[i + 1] == Exec(u, states[i], labels[i])
  }

  // ---------------------------------------------------------------------------
  // Succeeded deliveries are backed by processed events
  // ---------------------------------------------------------------------------

  predicate Backed(u: Setup, processed: set<EventId>, row: Worker.Delivery) {
    row.endpointId == u.bank && row.status == Worker.Succeeded ==> row.eventId in processed
  }

  /** In the committed table, and in what open transactions are about to commit. */
  ghost predicate AllBacked(u: Setup, processed: set<EventId>, q: Queue.Sys) {
    && (forall d :: d in q.table.rows ==> Backed(u, processed, q.table.rows[d]))
    && (forall v, d :: v in q.txs && d in q.txs[v].writes ==> Backed(u, processed, q.txs[v].writes[d]))
  }

  ghost predicate TxBacked(u: Setup, processed: set<EventId>, t: Queue.Tx) {
    forall d :: d in t.writes ==> Backed(u, processed, t.writes[d])
  }

  lemma TxMoves(u: Setup, processed: set<EventId>, q: Queue.Sys, v: Queue.WorkerId, t: Queue.Tx)
    requires AllBacked(u, processed, q) && TxBacked(u, processed, t)
    ensures AllBacked(u, processed, q.(txs := q.txs[v := t]))
  {
  }

  lemma ClaimBacked(u: Setup, processed: set<EventId>, q: Queue.Sys, v: Queue.WorkerId, now: Time, ids: seq<Worker.Id>)
    requires AllBacked(u, processed, q) && v in q.txs
    ensures TxBacked(u, processed, Queue.ClaimTx(u.cfg, q.table, q.txs[v], now, ids))
  {
  }

  lemma PostBacked(u: Setup, processed: set<EventId>, q: Queue.Sys, v: Queue.WorkerId, reply: Worker.Reply)
    requires AllBacked(u, processed, q) && v in q.txs && Queue.CanPost(q.table, q.txs[v], reply)
    requires var row := Queue.View(q.table, q.txs[v]).rows[q.txs[v].ids[q.txs[v].posted]];
      row.endpointId == u.bank && reply.outcome.Response? && 200 <= reply.outcome.code <= 299 ==>
        row.eventId in processed
    ensures TxBacked(u, processed, Queue.PostTx(u.cfg, q.table, q.txs[v], reply))
  {
  }

  lemma QueueKeepsBacked(u: Setup, w: World, processed: set<EventId>, l: Queue.Label)
    requires AllBacked(u, processed, w.queue) && Queue.Enabled(u.cfg, w.queue, l) && AnswersAreReal(u, w, l)
    requires forall id :: Acked(w.bank, id) ==> id in processed
    ensures AllBacked(u, processed, Queue.Exec(u.cfg, w.queue, l))
  {
    var q := w.queue;
    match l
    case Recover(v, name, now) => TxMoves(u, processed, q, v, Queue.BeginTx(q.table, name, now));
    case Claim(v, now, ids) =>
      ClaimBacked(u, processed, q, v, now, ids);
      TxMoves(u, processed, q, v, Queue.ClaimTx(u.cfg, q.table, q.txs[v], now, ids));
    case Post(v, reply) =>
      PostBacked(u, processed, q, v, reply);
      TxMoves(u, processed, q, v, Queue.PostTx(u.cfg, q.table, q.txs[v], reply));
    case _ =>
  }

  // ---------------------------------------------------------------------------
  // The invariant
  // ---------------------------------------------------------------------------

  /** Every applied trade, and every trade about to be applied, is the logged trade of its event. */
  ghost predicate BankHonest(events: seq<Event>, bank: SafeBank.Sys) {
    && (forall i :: 0 <= i < |bank.log| ==> Logged(events, bank.log[i].id, bank.log[i].trade))
    && (forall t :: t in bank.txs ==> Honest(events, bank.txs[t].req))
  }

  ghost predicate Inv(u: Setup, w: World) {
    && Queue.Inv(u.cfg, NO_ROWS, w.queue)
    && SafeBank.Inv(w.bank)
    && DistinctEvents(w.events)
    && BankHonest(w.events, w.bank)
    && AllBacked(u, w.bank.db.processed, w.queue)
  }

  lemma AckedProcessed(bank: SafeBank.Sys)
    requires SafeBank.Inv(bank)
    ensures forall id :: Acked(bank, id) ==> id in bank.db.processed
  {
    forall id | Acked(bank, id) ensures id in bank.db.processed {
      var i :|
        0 <= i < |bank.answers| && bank.answers[i].req.event == Some(id) && bank.answers[i].status == SafeBank.OK;
      assert SafeBank.Acknowledged(bank.db, bank.answers[i]);
    }
  }

  lemma BankKeepsHonest(events: seq<Event>, bank: SafeBank.Sys, b: SafeBank.Label)
    requires SafeBank.Inv(bank) && BankHonest(events, bank) && SafeBank.Enabled(bank, b)
    requires b.Receive? ==> Honest(events, b.req)
    ensures BankHonest(events, SafeBank.Exec(bank, b))
    ensures bank.db.processed <= SafeBank.Exec(bank, b).db.processed
  {
    if b.Commit? {
      assert SafeBank.TxInv(bank.db, bank.txs[b.t]);
    }
  }

  lemma PublishKeepsHonest(events: seq<Event>, more: seq<Event>, bank: SafeBank.Sys)
    requires BankHonest(events, bank)
    ensures BankHonest(events + more, bank)
  {
  }

  lemma QueueStepKeepsInv(u: Setup, w: World, q: Queue.Label)
    requires Inv(u, w) && Queue.Enabled(u.cfg, w.queue, q) && AnswersAreReal(u, w, q)
    ensures Queue.Inv(u.cfg, NO_ROWS, Queue.Exec(u.cfg, w.queue, q))
    ensures AllBacked(u, w.bank.db.processed, Queue.Exec(u.cfg, w.queue, q))
  {
    AckedProcessed(w.bank);
    Queue.StepKeepsInv(u.cfg, NO_ROWS, w.queue, q, Queue.Exec(u.cfg, w.queue, q));
    QueueKeepsBacked(u, w, w.bank.db.processed, q);
  }

  lemma StepKeepsInv(u: Setup, w: World, l: Label)
    requires Inv(u, w) && Enabled(u, w, l)
    ensures Inv(u, Exec(u, w, l))
  {
    match l
    case QueueStep(q) => QueueStepKeepsInv(u, w, q);
    case BankStep(b) =>
      SafeBank.StepKeepsInv(w.bank, b);
      BankKeepsHonest(w.events, w.bank, b);
    case Publish(events, rows) =>
      QueueStepKeepsInv(u, w, Queue.Ingest(rows));
      PublishKeepsHonest(w.events, events, w.bank);
  }

  lemma {:induction false} RunKeepsInv(u: Setup, states: seq<World>, labels: seq<Label>, n: nat)
    requires Run(u, states, labels) && n <= |labels|
    ensures Inv(u, states[n])
  {
    if n > 0 {
      RunKeepsInv(u, states, labels, n - 1);
      StepKeepsInv(u, states[n - 1], labels[n - 1]);
    } else {
      assert SafeBank.Inv(SafeBank.START);
    }
  }

  // ---------------------------------------------------------------------------
  // Drift
  // ---------------------------------------------------------------------------

  function TradesOf(events: seq<Event>): (ts: seq<Trade>)
    ensures |ts| == |events| && forall i :: 0 <= i < |ts| ==> ts[i] == events[i].trade
  {
    if events == [] then [] else TradesOf(events[..|events| - 1]) + [events[|events| - 1].trade]
  }

  /** The sum of the account's deltas over the logged events whose membership in `ids` is `inside`. */
  function Part(events: seq<Event>, ids: set<EventId>, inside: bool, a: Account): Cents {
    if events == [] then 0
    else
      var e := events[|events| - 1];
      Part(events[..|events| - 1], ids, inside, a)
      + (if e.trade.account == a && (e.id in ids) == inside then e.trade.delta else 0)
  }

  /** Money of logged trades that the bank has not processed yet. */
  function Unprocessed(w: World, a: Account): Cents {
    Part(w.events, w.bank.db.processed, false, a)
  }

  function Balance(w: World, a: Account): Cents {
    Visible(w.bank.db.rows, a).balance
  }

  lemma {:induction false} PartsAddUp(events: seq<Event>, ids: set<EventId>, a: Account)
    ensures Part(events, ids, true, a) + Part(events, ids, false, a) == Sum(TradesOf(events), a)
  {
    if events != [] {
      var n := |events| - 1;
      PartsAddUp(events[..n], ids, a);
      assert TradesOf(events)[..n] == TradesOf(events[..n]);
    }
  }

  lemma {:induction false} PartUnchanged(events: seq<Event>, ids: set<EventId>, id: EventId, a: Account)
    requires forall i :: 0 <= i < |events| ==> events[i].id != id
    ensures Part(events, ids + {id}, true, a) == Part(events, ids, true, a)
  {
    if events != [] {
      PartUnchanged(events[..|events| - 1], ids, id, a);
    }
  }

  /** One more processed event adds exactly its own delta. */
  lemma {:induction false} PartGrows(events: seq<Event>, ids: set<EventId>, e: Event, a: Account)
    requires DistinctEvents(events) && e in events && e.id !in ids
    ensures Part(events, ids + {e.id}, true, a) ==
            Part(events, ids, true, a) + (if e.trade.account == a then e.trade.delta else 0)
  {
    var n := |events| - 1;
    var last := events[n];
    if last == e {
      PartUnchanged(events[..n], ids, e.id, a);
    } else {
      var i :| 0 <= i < |events| && events[i] == e;
      assert events[..n][i] == e;
      PartGrows(events[..n], ids, e, a);
      assert last.id != e.id;
    }
  }

  lemma {:induction false} PartEmpty(events: seq<Event>, a: Account)
    ensures Part(events, {}, true, a) == 0
  {
    if events != [] {
      PartEmpty(events[..|events| - 1], a);
    }
  }

  /** What the bank has applied is what the log says of the events it has processed. */
  lemma {:induction false} AppliedIsLogged(events: seq<Event>, log: seq<SafeBank.Entry>, a: Account)
    requires DistinctEvents(events) && SafeBank.DistinctIds(log)
    requires forall i :: 0 <= i < |log| ==> Logged(events, log[i].id, log[i].trade)
    ensures SafeBank.Total(log, a) == Part(events, SafeBank.Ids(log), true, a)
  {
    if log == [] {
      assert SafeBank.Ids(log) == {};
      PartEmpty(events, a);
    } else {
      var n := |log| - 1;
      var before, e := log[..n], log[n];
      AppliedIsLogged(events, before, a);
      assert log == before + [e];
      SafeBank.EntrySnoc(before, e);
      SafeBank.TotalSnoc(before, e, a);
      assert e.id !in SafeBank.Ids(before);
      PartGrows(events, SafeBank.Ids(before), Event(e.id, e.trade), a);
    }
  }

  /**
   * In every reachable state an account's drift is exactly minus the money of the logged trades that
   * the bank has not processed: nothing is lost for good, nothing is applied twice or made up.
   */
  lemma DriftIsUnprocessed(u: Setup, states: seq<World>, labels: seq<Label>, n: nat, a: Account)
    requires Run(u, states, labels) && n <= |labels|
    ensures Balance(states[n], a) - (STARTING_BALANCE + Sum(TradesOf(states[n].events), a)) ==
            -Unprocessed(states[n], a)
  {
    RunKeepsInv(u, states, labels, n);
    var w := states[n];
    SafeBank.FoldBalance(w.bank.log, a);
    AppliedIsLogged(w.events, w.bank.log, a);
    PartsAddUp(w.events, w.bank.db.processed, a);
  }

  /** A delivery to the bank that succeeded has its event in the processed table, even before its commit. */
  lemma SucceededIsProcessed(u: Setup, states: seq<World>, labels: seq<Label>, n: nat, d: Worker.Id)
    requires Run(u, states, labels) && n <= |labels|
    ensures d in states[n].queue.table.rows ==>
              Backed(u, states[n].bank.db.processed, states[n].queue.table.rows[d])
    ensures forall v :: v in states[n].queue.txs && d in states[n].queue.txs[v].writes ==>
              Backed(u, states[n].bank.db.processed, states[n].queue.txs[v].writes[d])
  {
    RunKeepsInv(u, states, labels, n);
  }

  // ---------------------------------------------------------------------------
  // Reconciliation
  // ---------------------------------------------------------------------------

  predicate DeliversTo(u: Setup, row: Worker.Delivery, id: EventId) {
    row.endpointId == u.bank && row.eventId == id
  }

  predicate HasDelivery(u: Setup, w: World, id: EventId) {
    exists d :: d in w.queue.table.rows && DeliversTo(u, w.queue.table.rows[d], id)
  }

  /** Every logged trade was fanned out to the bank. */
  predicate FannedOut(u: Setup, w: World) {
    forall i :: 0 <= i < |w.events| ==> HasDelivery(u, w, w.events[i].id)
  }

  /** `_delivery_counts` of the bank: nothing pending or in flight, nothing dead-lettered. */
  predicate NothingLeft(u: Setup, w: World) {
    forall d :: d in w.queue.table.rows && w.queue.table.rows[d].endpointId == u.bank ==>
      var status := w.queue.table.rows[d].status;
      status != Worker.Pending && status != Worker.InFlight && status != Worker.DeadLettered
  }

  lemma {:induction false} NothingUnprocessed(events: seq<Event>, ids: set<EventId>, a: Account)
    requires forall i :: 0 <= i < |events| ==> events[i].id in ids
    ensures Part(events, ids, false, a) == 0
  {
    if events != [] {
      NothingUnprocessed(events[..|events| - 1], ids, a);
    }
  }

  lemma AllProcessed(u: Setup, states: seq<World>, labels: seq<Label>, n: nat)
    requires Run(u, states, labels) && n <= |labels|
    requires FannedOut(u, states[n]) && NothingLeft(u, states[n])
    ensures forall i :: 0 <= i < |states[n].events| ==> states[n].events[i].id in states[n].bank.db.processed
  {
    RunKeepsInv(u, states, labels, n);
    var w := states[n];
    forall i | 0 <= i < |w.events| ensures w.events[i].id in w.bank.db.processed {
      assert HasDelivery(u, w, w.events[i].id);
      var d :| d in w.queue.table.rows && DeliversTo(u, w.queue.table.rows[d], w.events[i].id);
      Guarantees.LogAtRest(u.cfg, NO_ROWS, w.queue.log, d);
      assert Backed(u, w.bank.db.processed, w.queue.table.rows[d]);
    }
  }

  /** Then every balance is the start plus the deltas of the logged trades, each counted once. */
  lemma BalancesMatchLog(u: Setup, states: seq<World>, labels: seq<Label>, n: nat, a: Account)
    requires Run(u, states, labels) && n <= |labels|
    requires FannedOut(u, states[n]) && NothingLeft(u, states[n])
    ensures Balance(states[n], a) == STARTING_BALANCE + Sum(TradesOf(states[n].events), a)
  {
    AllProcessed(u, states, labels, n);
    DriftIsUnprocessed(u, states, labels, n, a);
    NothingUnprocessed(states[n].events, states[n].bank.db.processed, a);
  }

  /** The logged trades come from producer-built payloads, in log order. */
  ghost predicate Produced(lib: TradeLog.Library, events: seq<Event>, sales: seq<TradeLog.Sale>) {
    |events| == |sales| &&
    forall i :: 0 <= i < |events| ==> TradeLog.ParseTrade(lib, TradeLog.Write(sales[i])) == Some(events[i].trade)
  }

  lemma ParsedIsLogged(lib: TradeLog.Library, events: seq<Event>, sales: seq<TradeLog.Sale>)
    requires Produced(lib, events, sales)
    ensures TradeLog.Parsed(lib, TradeLog.Built(sales)) == TradesOf(events)
  {
    var log := TradeLog.Built(sales);
    forall i | 0 <= i < |log| ensures TradeLog.ParseTrade(lib, log[i]) == Some(TradesOf(events)[i]) {
      TradeLog.BuiltAt(sales, i);
    }
    TradeLog.ParsedAll(lib, log, TradesOf(events));
  }

  /** What `expected_from_event_log` returns for the payloads. */
  ghost predicate IsExpected(lib: TradeLog.Library, sales: seq<TradeLog.Sale>,
                             expected: map<Account, TradeLog.Expected>)
  {
    var log := TradeLog.Built(sales);
    && expected.Keys == TradeLog.SqlAccounts(log)
    && forall a :: a in expected ==> expected[a] == TradeLog.ExpectedOf(lib, TradeLog.GroupOf(log, a))
  }

  lemma ExpectedIsSum(lib: TradeLog.Library, sales: seq<TradeLog.Sale>, expected: map<Account, TradeLog.Expected>,
                      a: Account)
    requires TradeLog.Faithful(lib) && IsExpected(lib, sales, expected)
    ensures TradeLog.ExpectedIn(expected, a) ==
            STARTING_BALANCE + Sum(TradeLog.Parsed(lib, TradeLog.Built(sales)), a)
    ensures a in expected ==>
              expected[a].trades == TradeLog.CountFor(TradeLog.Parsed(lib, TradeLog.Built(sales)), a)
  {
    TradeLog.OracleAgrees(lib, sales, a);
    if a !in expected {
      TradeLog.AbsentSumsToZero(TradeLog.Built(sales), a);
    }
  }

  lemma ExpectedIsLogged(lib: TradeLog.Library, events: seq<Event>, sales: seq<TradeLog.Sale>,
                         expected: map<Account, TradeLog.Expected>, a: Account)
    requires TradeLog.Faithful(lib) && Produced(lib, events, sales) && IsExpected(lib, sales, expected)
    ensures TradeLog.ExpectedIn(expected, a) == STARTING_BALANCE + Sum(TradesOf(events), a)
  {
    ParsedIsLogged(lib, events, sales);
    ExpectedIsSum(lib, sales, expected, a);
  }

  lemma NoDrift(w: World, lib: TradeLog.Library, sales: seq<TradeLog.Sale>, expected: map<Account, TradeLog.Expected>,
                a: Account)
    requires TradeLog.Faithful(lib) && Produced(lib, w.events, sales) && IsExpected(lib, sales, expected)
    requires Balance(w, a) == STARTING_BALANCE + Sum(TradesOf(w.events), a)
    ensures TradeLog.Drift(w.bank.db.rows, expected, a) == 0
  {
    ExpectedIsLogged(lib, w.events, sales, expected, a);
  }

  // ---------------------------------------------------------------------------
  // The statuses are up to date as well
  // ---------------------------------------------------------------------------

  /** Whatever the bank has applied was logged, with the same trade. */
  ghost predicate OnlyLogged(events: seq<Event>, log: seq<SafeBank.Entry>) {
    DistinctEvents(events) && forall j :: 0 <= j < |log| ==> Logged(events, log[j].id, log[j].trade)
  }

  /** What the bank has applied is what was logged: the same events with the same trades. */
  ghost predicate SameEvents(events: seq<Event>, log: seq<SafeBank.Entry>) {
    OnlyLogged(events, log) && forall i :: 0 <= i < |events| ==> events[i].id in SafeBank.Ids(log)
  }

  lemma EventOfEntry(events: seq<Event>, log: seq<SafeBank.Entry>, j: nat) returns (i: nat)
    requires OnlyLogged(events, log) && j < |log|
    ensures i < |events| && events[i].id == log[j].id && events[i].trade == log[j].trade
  {
    assert Logged(events, log[j].id, log[j].trade);
    i :| 0 <= i < |events| && events[i] == Event(log[j].id, log[j].trade);
  }

  lemma EntryOfEvent(events: seq<Event>, log: seq<SafeBank.Entry>, i: nat) returns (j: nat)
    requires OnlyLogged(events, log) && i < |events| && events[i].id in SafeBank.Ids(log)
    ensures j < |log| && log[j].trade == events[i].trade
  {
    assert events[i].id in SafeBank.Ids(log);
    j :| 0 <= j < |log| && log[j].id == events[i].id;
    var m := EventOfEntry(events, log, j);
    assert m == i;
  }

  lemma SaleOfEvent(lib: TradeLog.Library, events: seq<Event>, sales: seq<TradeLog.Sale>, i: nat)
    requires TradeLog.Faithful(lib) && Produced(lib, events, sales) && i < |events|
    ensures events[i].trade.account == sales[i].account && events[i].trade.executedAt == Text.Index(sales[i].now)
  {
    TradeLog.ParseBuilt(lib, sales[i]);
  }

  predicate IsLatestEvent(events: seq<Event>, a: Account, k: nat) {
    && k < |events| && events[k].trade.account == a
    && forall i :: 0 <= i < |events| && events[i].trade.account == a ==>
         events[i].trade.executedAt <= events[k].trade.executedAt
  }

  lemma LatestEventApplied(events: seq<Event>, log: seq<SafeBank.Entry>, a: Account, k: nat) returns (i: nat)
    requires SameEvents(events, log) && IsLatestEvent(events, a, k)
    ensures IsLatestEvent(events, a, i) && events[i].trade.executedAt == events[k].trade.executedAt
    ensures SafeBank.Fold(log, a).statusAsOf == Some(events[i].trade.executedAt)
    ensures SafeBank.Fold(log, a).status == Some(events[i].trade.description)
  {
    var j := EntryOfEvent(events, log, k);
    var m := SafeBank.StatusIsLatest(log, a);
    assert SafeBank.TradeOf(log[j], a);
    i := EventOfEntry(events, log, m);
  }

  /** The row's timestamp is that of the account's latest sale. */
  lemma LatestApplied(lib: TradeLog.Library, events: seq<Event>, sales: seq<TradeLog.Sale>,
                      log: seq<SafeBank.Entry>, a: Account, k: nat)
    requires TradeLog.Faithful(lib) && Produced(lib, events, sales) && SameEvents(events, log)
    requires TradeLog.IsLatestSale(sales, a, k)
    ensures SafeBank.Fold(log, a).statusAsOf == Some(Text.Index(sales[k].now))
  {
    forall i | 0 <= i < |events|
      ensures events[i].trade.account == sales[i].account && events[i].trade.executedAt == Text.Index(sales[i].now)
    {
      SaleOfEvent(lib, events, sales, i);
    }
    var _ := LatestEventApplied(events, log, a, k);
  }

  /** An account that no sale names has never been given a status. */
  lemma NoneApplied(lib: TradeLog.Library, events: seq<Event>, sales: seq<TradeLog.Sale>, log: seq<SafeBank.Entry>,
                    a: Account)
    requires TradeLog.Faithful(lib) && Produced(lib, events, sales) && SameEvents(events, log)
    requires forall i :: 0 <= i < |sales| ==> sales[i].account != a
    ensures SafeBank.Fold(log, a).statusAsOf == None
  {
    var _ := SafeBank.StatusIsLatest(log, a);
    forall j | 0 <= j < |log| ensures !SafeBank.TradeOf(log[j], a) {
      var i := EventOfEntry(events, log, j);
      SaleOfEvent(lib, events, sales, i);
    }
  }

  lemma ReadsAs(lib: TradeLog.Library, u: Text.Utc)
    requires TradeLog.Faithful(lib) && Text.ValidUtc(u)
    ensures Text.Iso(u) != "" && lib.fromIso(Text.Iso(u)) == Some(TradeLog.Moment(Text.Index(u), true))
  {
    Text.IsoRoundTrip(u);
  }

  lemma LatestOfText(lib: TradeLog.Library, g: TradeLog.Group, text: string)
    requires g.latest == Some(text) && text != ""
    ensures TradeLog.ExpectedOf(lib, g).latest == lib.fromIso(text)
  {
  }

  /** What the log expects of the account's timestamp: the instant of its latest sale, read with its offset. */
  lemma LatestExpected(lib: TradeLog.Library, sales: seq<TradeLog.Sale>, a: Account) returns (k: nat)
    requires TradeLog.Faithful(lib)
    ensures var latest := TradeLog.ExpectedOf(lib, TradeLog.GroupOf(TradeLog.Built(sales), a)).latest;
      if latest == None then forall i :: 0 <= i < |sales| ==> sales[i].account != a
      else TradeLog.IsLatestSale(sales, a, k) && latest == Some(TradeLog.Moment(Text.Index(sales[k].now), true))
  {
    k := TradeLog.MaxIsLatest(sales, a);
    var group := TradeLog.GroupOf(TradeLog.Built(sales), a);
    if group.latest != None {
      ReadsAs(lib, sales[k].now);
      LatestOfText(lib, group, group.latest.value);
    }
  }

  /** The account's committed status is as late as the log says: comparing the two neither raises nor finds it stale. */
  ghost predicate UpToDate(rows: map<Account, Row>, expected: map<Account, TradeLog.Expected>, a: Account) {
    && (a in expected && expected[a].latest.Some? ==>
          Visible(rows, a).statusAsOf == Some(expected[a].latest.value.instant))
    && !TradeLog.Raises(rows, expected, a) && !TradeLog.ViewOf(rows, expected, a).stale
  }

  lemma StatusUpToDate(w: World, lib: TradeLog.Library, sales: seq<TradeLog.Sale>,
                       expected: map<Account, TradeLog.Expected>, a: Account)
    requires TradeLog.Faithful(lib) && Produced(lib, w.events, sales) && IsExpected(lib, sales, expected)
    requires SameEvents(w.events, w.bank.log) && SafeBank.Inv(w.bank)
    ensures UpToDate(w.bank.db.rows, expected, a)
  {
    if a in expected && expected[a].latest.Some? {
      var k := LatestExpected(lib, sales, a);
      LatestApplied(lib, w.events, sales, w.bank.log, a, k);
    }
  }

  predicate IsStatusOf(rows: map<Account, Row>, lib: TradeLog.Library, x: TradeLog.Sale, a: Account) {
    && a in rows && rows[a].statusAsOf == Some(Text.Index(x.now))
    && rows[a].status ==
       Some(lib.strip((if x.buy then "buy" else "sell") + " $" + TradeLog.MoneyText(x.amount) + " " + x.symbol))
  }

  /** The account shows the side, amount and symbol of a latest sale of it, with the time of that sale. */
  ghost predicate ShowsLatestSale(rows: map<Account, Row>, lib: TradeLog.Library, sales: seq<TradeLog.Sale>,
                                  a: Account)
  {
    (exists i :: 0 <= i < |sales| && sales[i].account == a) ==>
      exists k: nat :: TradeLog.IsLatestSale(sales, a, k) && IsStatusOf(rows, lib, sales[k], a)
  }

  lemma LatestSaleExists(sales: seq<TradeLog.Sale>, a: Account, i: nat) returns (k: nat)
    requires i < |sales| && sales[i].account == a
    ensures TradeLog.IsLatestSale(sales, a, k)
  {
    k := TradeLog.MaxIsLatest(sales, a);
  }

  lemma LatestEventIsSale(lib: TradeLog.Library, events: seq<Event>, sales: seq<TradeLog.Sale>, a: Account, k: nat)
    requires TradeLog.Faithful(lib) && Produced(lib, events, sales)
    ensures IsLatestEvent(events, a, k) <==> TradeLog.IsLatestSale(sales, a, k)
  {
    forall i | 0 <= i < |events|
      ensures events[i].trade.account == sales[i].account && events[i].trade.executedAt == Text.Index(sales[i].now)
    {
      SaleOfEvent(lib, events, sales, i);
    }
  }

  lemma StatusIsLatestSale(w: World, lib: TradeLog.Library, sales: seq<TradeLog.Sale>, a: Account)
    requires TradeLog.Faithful(lib) && Produced(lib, w.events, sales)
    requires SameEvents(w.events, w.bank.log) && SafeBank.Inv(w.bank)
    ensures ShowsLatestSale(w.bank.db.rows, lib, sales, a)
  {
    if i :| 0 <= i < |sales| && sales[i].account == a {
      var k := LatestSaleExists(sales, a, i);
      LatestEventIsSale(lib, w.events, sales, a, k);
      var m := LatestEventApplied(w.events, w.bank.log, a, k);
      LatestEventIsSale(lib, w.events, sales, a, m);
      SaleOfEvent(lib, w.events, sales, m);
      TradeLog.BuiltDescription(lib, sales[m]);
      assert IsStatusOf(w.bank.db.rows, lib, sales[m], a);
    }
  }

  lemma AllApplied(u: Setup, states: seq<World>, labels: seq<Label>, n: nat)
    requires Run(u, states, labels) && n <= |labels|
    requires FannedOut(u, states[n]) && NothingLeft(u, states[n])
    ensures SafeBank.Inv(states[n].bank) && SameEvents(states[n].events, states[n].bank.log)
  {
    RunKeepsInv(u, states, labels, n);
    AllProcessed(u, states, labels, n);
  }

  /**
   * Exactly-once money, end to end. Whatever crashed, was retried, redriven, posted twice or lost its
   * acknowledgement on the way: in every reachable state where each producer-built trade was fanned
   * out to the bank and none of the bank's deliveries is pending or dead-lettered, the reconciliation
   * does not raise and finds no drift and no stale status on any account, and each account shows its
   * latest sale.
   */
  lemma ExactlyOnceMoney(u: Setup, states: seq<World>, labels: seq<Label>, n: nat,
                         lib: TradeLog.Library, sales: seq<TradeLog.Sale>,
                         expected: map<Account, TradeLog.Expected>, view: TradeLog.BankView)
    requires Run(u, states, labels) && n <= |labels|
    requires FannedOut(u, states[n]) && NothingLeft(u, states[n])
    requires TradeLog.Faithful(lib) && Produced(lib, states[n].events, sales) && IsExpected(lib, sales, expected)
    requires TradeLog.IsView(states[n].bank.db.rows, expected, view)
    ensures forall a :: TradeLog.Drift(states[n].bank.db.rows, expected, a) == 0
    ensures forall a :: UpToDate(states[n].bank.db.rows, expected, a)
    ensures forall a :: ShowsLatestSale(states[n].bank.db.rows, lib, sales, a)
    ensures view.totalDrift == 0
    ensures forall i :: 0 <= i < |view.accounts| ==> view.accounts[i].drift == 0 && !view.accounts[i].stale
  {
    var rows := states[n].bank.db.rows;
    AllApplied(u, states, labels, n);
    forall a ensures TradeLog.Drift(rows, expected, a) == 0 && UpToDate(rows, expected, a) {
      BalancesMatchLog(u, states, labels, n, a);
      NoDrift(states[n], lib, sales, expected, a);
      StatusUpToDate(states[n], lib, sales, expected, a);
    }
    forall a ensures ShowsLatestSale(rows, lib, sales, a) {
      StatusIsLatestSale(states[n], lib, sales, a);
    }
    forall i | 0 <= i < |view.accounts| ensures view.accounts[i].drift == 0 && !view.accounts[i].stale {
      assert UpToDate(rows, expected, view.accounts[i].account);
    }
  }

  // ---------------------------------------------------------------------------
  // What the reconciliation shows in every reachable state
  // ---------------------------------------------------------------------------

  /** The drift of a line is exactly minus the money of the logged trades not yet processed. */
  lemma ShownDrift(u: Setup, states: seq<World>, labels: seq<Label>, n: nat, lib: TradeLog.Library,
                   sales: seq<TradeLog.Sale>, expected: map<Account, TradeLog.Expected>, a: Account)
    requires Run(u, states, labels) && n <= |labels|
    requires TradeLog.Faithful(lib) && Produced(lib, states[n].events, sales) && IsExpected(lib, sales, expected)
    ensures TradeLog.ViewOf(states[n].bank.db.rows, expected, a).drift == -Unprocessed(states[n], a)
  {
    DriftIsUnprocessed(u, states, labels, n, a);
    ExpectedIsLogged(lib, states[n].events, sales, expected, a);
  }

  predicate IsProcessed(w: World, a: Account, i: nat)
    requires i < |w.events|
  {
    w.events[i].trade.account == a && w.events[i].id in w.bank.db.processed
  }

  ghost predicate IsAhead(w: World, a: Account, k: nat)
    requires k < |w.events|
  {
    forall i :: 0 <= i < |w.events| && IsProcessed(w, a, i) ==>
      w.events[i].trade.executedAt < w.events[k].trade.executedAt
  }

  /** A logged trade of the account is later than every processed one, of which there are some. */
  ghost predicate MissesLatest(w: World, a: Account) {
    && (exists i :: 0 <= i < |w.events| && IsProcessed(w, a, i))
    && (exists k :: 0 <= k < |w.events| && w.events[k].trade.account == a && IsAhead(w, a, k))
  }

  /** `at` is the time of the latest processed trade of the account, that of event `i`, if there is any. */
  ghost predicate ProcessedUpTo(w: World, a: Account, at: Option<Instant>, i: nat) {
    if at == None then forall j :: 0 <= j < |w.events| ==> !IsProcessed(w, a, j)
    else
      && i < |w.events| && IsProcessed(w, a, i) && w.events[i].trade.executedAt == at.value
      && forall j :: 0 <= j < |w.events| && IsProcessed(w, a, j) ==> w.events[j].trade.executedAt <= at.value
  }

  /** `at` is the time of the latest logged trade of the account, that of event `k`, if there is any. */
  ghost predicate LoggedUpTo(w: World, a: Account, at: Option<Instant>, k: nat) {
    if at == None then forall i :: 0 <= i < |w.events| ==> w.events[i].trade.account != a
    else IsLatestEvent(w.events, a, k) && w.events[k].trade.executedAt == at.value
  }

  /** The committed timestamp is that of the latest processed trade. */
  lemma LatestProcessed(w: World, a: Account) returns (i: nat)
    requires SafeBank.Inv(w.bank) && OnlyLogged(w.events, w.bank.log)
    ensures ProcessedUpTo(w, a, Visible(w.bank.db.rows, a).statusAsOf, i)
  {
    var log := w.bank.log;
    var m := SafeBank.StatusIsLatest(log, a);
    forall j | 0 <= j < |w.events| && IsProcessed(w, a, j)
      ensures exists e :: 0 <= e < |log| && SafeBank.TradeOf(log[e], a) && log[e].trade == w.events[j].trade
    {
      var e := EntryOfEvent(w.events, log, j);
      assert SafeBank.TradeOf(log[e], a);
    }
    i := 0;
    if Visible(w.bank.db.rows, a).statusAsOf.Some? {
      i := EventOfEntry(w.events, log, m);
    }
  }

  /** The timestamp that the log expects is that of the latest logged trade. */
  lemma LatestLogged(w: World, lib: TradeLog.Library, sales: seq<TradeLog.Sale>,
                     expected: map<Account, TradeLog.Expected>, a: Account)
    returns (k: nat)
    requires TradeLog.Faithful(lib) && Produced(lib, w.events, sales) && IsExpected(lib, sales, expected)
    ensures LoggedUpTo(w, a, TradeLog.LatestIn(expected, a), k)
  {
    k := LatestExpected(lib, sales, a);
    if TradeLog.LatestIn(expected, a).Some? {
      LatestEventIsSale(lib, w.events, sales, a, k);
      SaleOfEvent(lib, w.events, sales, k);
    } else {
      forall i | 0 <= i < |w.events| ensures w.events[i].trade.account != a {
        SaleOfEvent(lib, w.events, sales, i);
        TradeLog.CountedAt(sales, i, a);
      }
    }
  }

  lemma MissesIff(w: World, a: Account, at: Option<Instant>, i: nat, latest: Option<Instant>, k: nat)
    requires ProcessedUpTo(w, a, at, i) && LoggedUpTo(w, a, latest, k)
    ensures MissesLatest(w, a) <==> at.Some? && latest.Some? && at.value < latest.value
  {
    if at.Some? && latest.Some? && at.value < latest.value {
      assert IsAhead(w, a, k);
    }
  }

  lemma StaleIsMissing(w: World, expected: map<Account, TradeLog.Expected>, a: Account, i: nat, k: nat)
    requires ProcessedUpTo(w, a, Visible(w.bank.db.rows, a).statusAsOf, i)
    requires LoggedUpTo(w, a, TradeLog.LatestIn(expected, a), k)
    ensures TradeLog.ViewOf(w.bank.db.rows, expected, a).stale <==> MissesLatest(w, a)
  {
    MissesIff(w, a, Visible(w.bank.db.rows, a).statusAsOf, i, TradeLog.LatestIn(expected, a), k);
    TradeLog.ViewIsLine(w.bank.db.rows, expected, a);
  }

  lemma StaleIffMissing(w: World, lib: TradeLog.Library, sales: seq<TradeLog.Sale>,
                        expected: map<Account, TradeLog.Expected>, a: Account)
    requires SafeBank.Inv(w.bank) && OnlyLogged(w.events, w.bank.log)
    requires TradeLog.Faithful(lib) && Produced(lib, w.events, sales) && IsExpected(lib, sales, expected)
    ensures TradeLog.ViewOf(w.bank.db.rows, expected, a).stale <==> MissesLatest(w, a)
  {
    var i := LatestProcessed(w, a);
    var k := LatestLogged(w, lib, sales, expected, a);
    StaleIsMissing(w, expected, a, i, k);
  }

  /** The line shows minus the money not yet processed, and stale if and only if the latest trade is missing. */
  ghost predicate ShowsBacklog(w: World, line: TradeLog.AccountView) {
    line.drift == -Unprocessed(w, line.account) && (line.stale <==> MissesLatest(w, line.account))
  }

  /** The sum of the unprocessed money of the accounts shown, each without its sign. */
  function UnprocessedTotal(w: World, lines: seq<TradeLog.AccountView>): nat {
    if lines == [] then 0
    else
      var missing := Unprocessed(w, lines[|lines| - 1].account);
      UnprocessedTotal(w, lines[..|lines| - 1]) + if missing < 0 then -missing else missing
  }

  lemma {:induction false} LinesAddUp(w: World, lines: seq<TradeLog.AccountView>)
    requires forall i :: 0 <= i < |lines| ==> ShowsBacklog(w, lines[i])
    ensures TradeLog.TotalAbs(lines) == UnprocessedTotal(w, lines)
  {
    if lines != [] {
      var before, last := lines[..|lines| - 1], lines[|lines| - 1];
      LinesAddUp(w, before);
      TradeLog.TotalAbsAdds(before, [last]);
      assert before + [last] == lines;
    }
  }

  lemma LineIsBacklog(u: Setup, states: seq<World>, labels: seq<Label>, n: nat, lib: TradeLog.Library,
                      sales: seq<TradeLog.Sale>, expected: map<Account, TradeLog.Expected>, a: Account)
    requires Run(u, states, labels) && n <= |labels|
    requires TradeLog.Faithful(lib) && Produced(lib, states[n].events, sales) && IsExpected(lib, sales, expected)
    ensures ShowsBacklog(states[n], TradeLog.ViewOf(states[n].bank.db.rows, expected, a))
  {
    RunKeepsInv(u, states, labels, n);
    ShownDrift(u, states, labels, n, lib, sales, expected, a);
    StaleIffMissing(states[n], lib, sales, expected, a);
  }

  /**
   * In every reachable state, with all that is still under way, lost or dead-lettered: the reconciliation
   * shows for each account minus the money not yet processed, in total the sum of these amounts, and an
   * account's status as stale if and only if it misses a trade later than all that it has processed.
   */
  lemma ViewIsBacklog(u: Setup, states: seq<World>, labels: seq<Label>, n: nat, lib: TradeLog.Library,
                      sales: seq<TradeLog.Sale>, expected: map<Account, TradeLog.Expected>, view: TradeLog.BankView)
    requires Run(u, states, labels) && n <= |labels|
    requires TradeLog.Faithful(lib) && Produced(lib, states[n].events, sales) && IsExpected(lib, sales, expected)
    requires TradeLog.IsView(states[n].bank.db.rows, expected, view)
    ensures forall i :: 0 <= i < |view.accounts| ==> ShowsBacklog(states[n], view.accounts[i])
    ensures view.totalDrift == UnprocessedTotal(states[n], view.accounts)
  {
    forall i | 0 <= i < |view.accounts| ensures ShowsBacklog(states[n], view.accounts[i]) {
      LineIsBacklog(u, states, labels, n, lib, sales, expected, view.accounts[i].account);
    }
    LinesAddUp(states[n], view.accounts);
  }
}
