/**
 * Bank B (app/routers/showcase_ledger.py, bank_safe_receiver; app/services/showcase_ledger.py,
 * apply_trade_safe): verify, insert into the processed-events table, lock the account row, update it,
 * commit, and only then answer. `Bank` is the handler run alone; `Sys` is any number of handlers at
 * once, step by step, over READ COMMITTED transactions.
 */
module SafeBank {
  import opened Prelude
  import opened Ledger

  type TxId = nat
  type EventId = nat

  datatype Mode = Healthy | Flaky | Down

  /** What the handler extracts from an HTTP request: event id and trade when they parse, signature verdict. */
  datatype Request = Request(event: Option<EventId>, trade: Option<Trade>, verified: bool)

  datatype Db = Db(processed: set<EventId>, rows: map<Account, Row>)

  const OK := 200
  const BAD_REQUEST := 400
  const UNAUTHORIZED := 401
  const SERVER_ERROR := 500
  const UNAVAILABLE := 503

  const EMPTY := Db({}, map[])

  /** The balance update with the stale-timestamp guard. */
  function ApplyToRow(row: Row, trade: Trade): Row {
    var balance := row.balance + trade.delta;
    if row.statusAsOf == None || row.statusAsOf.value < trade.executedAt
    then Row(balance, Some(trade.description), Some(trade.executedAt))
    else row.(balance := balance)
  }

  /** The answer decided before any ledger work, if there is one. */
  function Refusal(req: Request, mode: Mode): Option<nat> {
    if mode == Down then Some(UNAVAILABLE)
    else if !req.verified then Some(UNAUTHORIZED)
    else if req.event == None || req.trade == None then Some(BAD_REQUEST)
    else None
  }

  /** Flaky mode withholds the acknowledgement of work it has committed. */
  function Ack(mode: Mode): nat {
    if mode == Healthy then OK else SERVER_ERROR
  }

  function Applied(db: Db, id: EventId, trade: Trade): Db {
    Db(db.processed + {id}, db.rows[trade.account := ApplyToRow(Visible(db.rows, trade.account), trade)])
  }

  /** One request handled alone. */
  function Serve(db: Db, req: Request, mode: Mode): (Db, nat) {
    match Refusal(req, mode)
    case Some(status) => (db, status)
    case None =>
      if req.event.value in db.processed then (db, Ack(mode))
      else (Applied(db, req.event.value, req.trade.value), Ack(mode))
  }

  /** A trade that is applied: its event recorded, its delta added, its status taken if it was executed later. */
  ghost predicate Applies(before: Db, after: Db, id: EventId, trade: Trade) {
    var was := if trade.account in before.rows then before.rows[trade.account] else Row(1_000_000, None, None);
    && after.processed == before.processed + {id}
    && after.rows.Keys == before.rows.Keys + {trade.account}
    && (forall a :: a in before.rows && a != trade.account ==> after.rows[a] == before.rows[a])
    && after.rows[trade.account].balance == was.balance + trade.delta
    && if was.statusAsOf.Some? && trade.executedAt <= was.statusAsOf.value
       then after.rows[trade.account].status == was.status && after.rows[trade.account].statusAsOf == was.statusAsOf
       else after.rows[trade.account].status == Some(trade.description)
            && after.rows[trade.account].statusAsOf == Some(trade.executedAt)
  }

  /** The status codes: 503 when down, 401 unsigned, 400 unreadable, then 200 when healthy and 500 when flaky. */
  predicate Status(req: Request, mode: Mode, status: nat) {
    && (mode == Down ==> status == 503)
    && (mode != Down && !req.verified ==> status == 401)
    && (mode != Down && req.verified && (req.event == None || req.trade == None) ==> status == 400)
    && (mode == Healthy && req.verified && req.event.Some? && req.trade.Some? ==> status == 200)
    && (mode == Flaky && req.verified && req.event.Some? && req.trade.Some? ==> status == 500)
  }

  /** What one request does to the ledger: nothing, unless it is let in and its event is new. */
  ghost predicate Effect(before: Db, after: Db, req: Request, mode: Mode) {
    if mode != Down && req.verified && req.event.Some? && req.trade.Some? && req.event.value !in before.processed
    then Applies(before, after, req.event.value, req.trade.value)
    else after == before
  }

  lemma ServeEffect(db: Db, req: Request, mode: Mode)
    ensures Status(req, mode, Serve(db, req, mode).1) && Effect(db, Serve(db, req, mode).0, req, mode)
  {
  }

  // ---------------------------------------------------------------------------
  // The handler run alone
  // ---------------------------------------------------------------------------

  class Bank {
    var processed: set<EventId>
    var rows: map<Account, Row>

    constructor ()
      ensures View() == EMPTY
    {
      processed, rows := {}, map[];
    }

    function View(): Db
      reads this
    {
      Db(processed, rows)
    }

    method EnsureAccountRow(account: Account)
      modifies this`rows
      ensures rows == old(rows)[account := Visible(old(rows), account)]
    {
      if account !in rows {
        rows := rows[account := FRESH_ROW];
      }
    }

    method ApplyTrade(id: EventId, trade: Trade) returns (duplicate: bool)
      modifies this
      ensures duplicate == (id in old(processed))
      ensures View() == if duplicate then old(View()) else Applied(old(View()), id, trade)
      ensures !duplicate ==> Applies(old(View()), View(), id, trade)
    {
      duplicate := id in processed;
      if duplicate {
        return;
      }
      processed := processed + {id};
      EnsureAccountRow(trade.account);
      var row := rows[trade.account];
      row := row.(balance := row.balance + trade.delta);
      if row.statusAsOf == None || trade.executedAt > row.statusAsOf.value {
        row := row.(status := Some(trade.description), statusAsOf := Some(trade.executedAt));
      }
      rows := rows[trade.account := row];
    }

    method Receive(req: Request, mode: Mode) returns (status: nat)
      modifies this
      ensures (View(), status) == Serve(old(View()), req, mode)
      ensures Status(req, mode, status) && Effect(old(View()), View(), req, mode)
    {
      ServeEffect(View(), req, mode);
      if mode == Down {
        return UNAVAILABLE;
      }
      if !req.verified {
        return UNAUTHORIZED;
      }
      if req.event == None || req.trade == None {
        return BAD_REQUEST;
      }
      var _ := ApplyTrade(req.event.value, req.trade.value);
      status := if mode == Healthy then OK else SERVER_ERROR;
    }
  }

  // ---------------------------------------------------------------------------
  // Many handlers at once
  // ---------------------------------------------------------------------------

  /**
   * `Received`: about to insert the processed row. `Inserted`: the insert went through. `RowReady`: the
   * account row exists. `Locked`: the row is locked and `seen` holds its newest committed version.
   * `Decided`: nothing to write (refused, or a duplicate).
   */
  datatype Phase = Received | Inserted | RowReady | Locked(seen: Row) | Decided(status: nat)

  datatype Tx = Tx(req: Request, mode: Mode, phase: Phase, insertedRow: bool)

  /** A committed application of a trade. */
  datatype Entry = Entry(id: EventId, trade: Trade)

  /** A request whose handler has committed, and the status it then answers. */
  datatype Answer = Answer(req: Request, mode: Mode, status: nat)

  datatype Sys = Sys(db: Db, txs: map<TxId, Tx>, log: seq<Entry>, answers: seq<Answer>)

  datatype Label =
    | Receive(t: TxId, req: Request, mode: Mode)
    | InsertProcessed(t: TxId)
    | EnsureRow(t: TxId)
    | LockRow(t: TxId)
    | Commit(t: TxId)
    | Abort(t: TxId)

  /** The transaction has inserted a processed row that it has not committed. */
  predicate HoldsId(x: Tx) {
    (x.phase == Inserted || x.phase == RowReady || x.phase.Locked?) && x.req.event.Some? && x.req.trade.Some?
  }

  predicate Inserting(s: Sys, t: TxId, id: EventId) {
    exists u :: u in s.txs && u != t && HoldsId(s.txs[u]) && s.txs[u].req.event.value == id
  }

  predicate RowBeingInserted(s: Sys, t: TxId, a: Account) {
    exists u ::
      u in s.txs && u != t && HoldsId(s.txs[u]) && s.txs[u].insertedRow && s.txs[u].req.trade.value.account == a
  }

  predicate RowLocked(s: Sys, t: TxId, a: Account) {
    exists u ::
      u in s.txs && u != t && HoldsId(s.txs[u]) && s.txs[u].phase.Locked? && s.txs[u].req.trade.value.account == a
  }

  predicate Enabled(s: Sys, l: Label) {
    match l
    case Receive(t, _, _) => t !in s.txs
    case InsertProcessed(t) =>
      // a conflicting insert waits for the transaction that holds the id
      t in s.txs && s.txs[t].phase == Received && s.txs[t].req.event.Some? && !Inserting(s, t, s.txs[t].req.event.value)
    case EnsureRow(t) =>
      t in s.txs && s.txs[t].phase == Inserted && s.txs[t].req.trade.Some?
      && !RowBeingInserted(s, t, s.txs[t].req.trade.value.account)
    case LockRow(t) =>
      // scalar_one() raises without a row
      t in s.txs && s.txs[t].phase == RowReady && s.txs[t].req.trade.Some?
      && (s.txs[t].insertedRow || s.txs[t].req.trade.value.account in s.db.rows)
      && !RowLocked(s, t, s.txs[t].req.trade.value.account)
    case Commit(t) => t in s.txs && (s.txs[t].phase.Decided? || (s.txs[t].phase.Locked? && HoldsId(s.txs[t])))
    case Abort(t) => t in s.txs
  }

  function Opened(req: Request, mode: Mode): Tx {
    match Refusal(req, mode)
    case Some(status) => Tx(req, mode, Decided(status), false)
    case None => Tx(req, mode, Received, false)
  }

  /** One commit covers the processed row and the balance; the answer is given after it. */
  function Committed(s: Sys, t: TxId): Sys
    requires Enabled(s, Commit(t))
  {
    var x := s.txs[t];
    if x.phase.Decided? then
      s.(txs := s.txs - {t}, answers := s.answers + [Answer(x.req, x.mode, x.phase.status)])
    else
      var id, trade := x.req.event.value, x.req.trade.value;
      Sys(Db(s.db.processed + {id}, s.db.rows[trade.account := ApplyToRow(x.phase.seen, trade)]),
          s.txs - {t}, s.log + [Entry(id, trade)], s.answers + [Answer(x.req, x.mode, Ack(x.mode))])
  }

  function Exec(s: Sys, l: Label): Sys
    requires Enabled(s, l)
  {
    match l
    case Receive(t, req, mode) => s.(txs := s.txs[t := Opened(req, mode)])
    case InsertProcessed(t) =>
      var x := s.txs[t];
      var phase := if x.req.event.value in s.db.processed then Decided(Ack(x.mode)) else Inserted;
      s.(txs := s.txs[t := x.(phase := phase)])
    case EnsureRow(t) =>
      var x := s.txs[t];
      s.(txs := s.txs[t := x.(phase := RowReady, insertedRow := x.req.trade.value.account !in s.db.rows)])
    case LockRow(t) =>
      var x := s.txs[t];
      s.(txs := s.txs[t := x.(phase := Locked(Visible(s.db.rows, x.req.trade.value.account)))])
    case Commit(t) => Committed(s, t)
    case Abort(t) => s.(txs := s.txs - {t})
  }

  const START := Sys(EMPTY, map[], [], [])

  ghost predicate Run(states: seq<Sys>, labels: seq<Label>) {
    && |states| == |labels| + 1
    && states[0] == START
    && forall i :: 0 <= i < |labels| ==> Enabled(states[i], labels[i]) && states[i + 1] == Exec(states[i], labels[i])
  }

  // ---------------------------------------------------------------------------
  // The serial bank and the applied trades
  // ---------------------------------------------------------------------------

  function Replay(answers: seq<Answer>): Db {
    if answers == [] then EMPTY
    else
      var a := answers[|answers| - 1];
      Serve(Replay(answers[..|answers| - 1]), a.req, a.mode).0
  }

  /** Every answered request got the status it would have got alone, in commit order. */
  ghost predicate Sequential(answers: seq<Answer>) {
    answers == [] ||
    (var before, a := answers[..|answers| - 1], answers[|answers| - 1];
     Sequential(before) && a.status == Serve(Replay(before), a.req, a.mode).1)
  }

  lemma ReplaySnoc(answers: seq<Answer>, a: Answer)
    ensures Replay(answers + [a]) == Serve(Replay(answers), a.req, a.mode).0
    ensures Sequential(answers + [a]) == (Sequential(answers) && a.status == Serve(Replay(answers), a.req, a.mode).1)
  {
    assert (answers + [a])[..|answers|] == answers;
  }

  function Ids(log: seq<Entry>): set<EventId> {
    set i | 0 <= i < |log| :: log[i].id
  }

  predicate DistinctIds(log: seq<Entry>) {
    forall i, j :: 0 <= i < j < |log| ==> log[i].id != log[j].id
  }

  /** The account's row after the trades of `log`, in order. */
  function Fold(log: seq<Entry>, a: Account): Row {
    if log == [] then FRESH_ROW
    else
      var e := log[|log| - 1];
      var before := Fold(log[..|log| - 1], a);
      if e.trade.account == a then ApplyToRow(before, e.trade) else before
  }

  function TradesIn(log: seq<Entry>): (ts: seq<Trade>)
    ensures |ts| == |log| && forall i :: 0 <= i < |log| ==> ts[i] == log[i].trade
  {
    if log == [] then [] else TradesIn(log[..|log| - 1]) + [log[|log| - 1].trade]
  }

  /** The sum of the deltas of the applied trades of one account. */
  function Total(log: seq<Entry>, a: Account): Cents {
    Sum(TradesIn(log), a)
  }

  lemma TotalSnoc(log: seq<Entry>, e: Entry, a: Account)
    ensures Total(log + [e], a) == Total(log, a) + (if e.trade.account == a then e.trade.delta else 0)
  {
    assert TradesIn(log + [e]) == TradesIn(log) + [e.trade];
    assert TradesIn(log + [e])[..|log|] == TradesIn(log);
  }

  lemma {:induction false} FoldBalance(log: seq<Entry>, a: Account)
    ensures Fold(log, a).balance == STARTING_BALANCE + Total(log, a)
  {
    if log != [] {
      var n := |log| - 1;
      FoldBalance(log[..n], a);
      TotalSnoc(log[..n], log[n], a);
      assert log == log[..n] + [log[n]];
    }
  }

  // ---------------------------------------------------------------------------
  // The invariant
  // ---------------------------------------------------------------------------

  predicate TxInv(db: Db, x: Tx) {
    && (!x.phase.Decided? ==> Refusal(x.req, x.mode) == None)
    && (x.phase.Decided? ==> (db, x.phase.status) == Serve(db, x.req, x.mode))
    && (HoldsId(x) ==> x.req.event.value !in db.processed)
    && (x.phase == RowReady || x.phase.Locked? ==> x.insertedRow || x.req.trade.value.account in db.rows)
    && (x.phase.Locked? ==> x.phase.seen == Visible(db.rows, x.req.trade.value.account))
  }

  /** No two open transactions hold the same event id, or the same locked account row. */
  predicate Apart(x: Tx, y: Tx) {
    HoldsId(x) && HoldsId(y) ==>
      && x.req.event.value != y.req.event.value
      && (x.phase.Locked? && y.phase.Locked? ==> x.req.trade.value.account != y.req.trade.value.account)
  }

  ghost predicate DbInv(s: Sys) {
    && s.db == Replay(s.answers) && Sequential(s.answers)
    && s.db.processed == Ids(s.log) && DistinctIds(s.log)
    && (forall a :: Visible(s.db.rows, a) == Fold(s.log, a))
  }

  predicate Acknowledged(db: Db, a: Answer) {
    a.status == OK ==> a.req.event.Some? && a.req.event.value in db.processed
  }

  ghost predicate Inv(s: Sys) {
    && DbInv(s)
    && (forall t :: t in s.txs ==> TxInv(s.db, s.txs[t]))
    && (forall t, u :: t in s.txs && u in s.txs && t != u ==> Apart(s.txs[t], s.txs[u]))
    && (forall i :: 0 <= i < |s.answers| ==> Acknowledged(s.db, s.answers[i]))
  }

  lemma TxMoves(s: Sys, t: TxId, x: Tx)
    requires Inv(s) && TxInv(s.db, x)
    requires forall u :: u in s.txs && u != t ==> Apart(s.txs[u], x)
    ensures Inv(s.(txs := s.txs[t := x]))
  {
  }

  lemma CommitDecided(s: Sys, t: TxId)
    requires Inv(s) && Enabled(s, Commit(t)) && s.txs[t].phase.Decided?
    ensures Inv(Exec(s, Commit(t)))
  {
    var x := s.txs[t];
    ReplaySnoc(s.answers, Answer(x.req, x.mode, x.phase.status));
  }

  lemma EntrySnoc(log: seq<Entry>, e: Entry)
    ensures Ids(log + [e]) == Ids(log) + {e.id}
    ensures DistinctIds(log) && e.id !in Ids(log) ==> DistinctIds(log + [e])
    ensures forall a ::
            Fold(log + [e], a) == if e.trade.account == a then ApplyToRow(Fold(log, a), e.trade) else Fold(log, a)
  {
    var log' := log + [e];
    assert log'[..|log|] == log;
    forall id | id in Ids(log) + {e.id} ensures id in Ids(log') {
      if id in Ids(log) {
        var i :| 0 <= i < |log| && log[i].id == id;
        assert log'[i].id == id;
      } else {
        assert log'[|log|].id == id;
      }
    }
  }

  /** The lock makes the version the handler saw the committed one, so its commit is the serial application. */
  lemma CommitApplied(s: Sys, t: TxId)
    requires Inv(s) && Enabled(s, Commit(t)) && !s.txs[t].phase.Decided?
    ensures Exec(s, Commit(t)).db == Applied(s.db, s.txs[t].req.event.value, s.txs[t].req.trade.value)
    ensures DbInv(Exec(s, Commit(t)))
  {
    var x := s.txs[t];
    EntrySnoc(s.log, Entry(x.req.event.value, x.req.trade.value));
    ReplaySnoc(s.answers, Answer(x.req, x.mode, Ack(x.mode)));
  }

  lemma OtherTx(s: Sys, x: Tx, y: Tx)
    requires TxInv(s.db, x) && TxInv(s.db, y) && Apart(x, y) && HoldsId(x) && x.phase.Locked?
    ensures TxInv(Applied(s.db, x.req.event.value, x.req.trade.value), y)
  {
  }

  lemma CommitStep(s: Sys, t: TxId)
    requires Inv(s) && Enabled(s, Commit(t)) && !s.txs[t].phase.Decided?
    ensures Inv(Exec(s, Commit(t)))
  {
    var s' := Exec(s, Commit(t));
    CommitApplied(s, t);
    forall u | u in s'.txs ensures TxInv(s'.db, s'.txs[u]) {
      OtherTx(s, s.txs[t], s.txs[u]);
    }
  }

  lemma StepKeepsInv(s: Sys, l: Label)
    requires Inv(s) && Enabled(s, l)
    ensures Inv(Exec(s, l))
  {
    match l
    case Receive(t, req, mode) => TxMoves(s, t, Opened(req, mode));
    case InsertProcessed(t) => TxMoves(s, t, Exec(s, l).txs[t]);
    case EnsureRow(t) => TxMoves(s, t, Exec(s, l).txs[t]);
    case LockRow(t) => TxMoves(s, t, Exec(s, l).txs[t]);
    case Commit(t) =>
      if s.txs[t].phase.Decided? {
        CommitDecided(s, t);
      } else {
        CommitStep(s, t);
      }
    case Abort(t) =>
  }

  lemma {:induction false} RunKeepsInv(states: seq<Sys>, labels: seq<Label>, n: nat)
    requires Run(states, labels) && n <= |labels|
    ensures Inv(states[n])
  {
    if n > 0 {
      RunKeepsInv(states, labels, n - 1);
      StepKeepsInv(states[n - 1], labels[n - 1]);
    } else {
      assert states[0] == START;
    }
  }

  // ---------------------------------------------------------------------------
  // Guarantees
  // ---------------------------------------------------------------------------

  /** All handlers together act like one handler serving the answered requests in commit order. */
  lemma Linearizable(states: seq<Sys>, labels: seq<Label>, n: nat)
    requires Run(states, labels) && n <= |labels|
    ensures states[n].db == Replay(states[n].answers) && Sequential(states[n].answers)
  {
    RunKeepsInv(states, labels, n);
  }

  /**
   * Exactly once: under any interleaving of transactions, duplicates and rollbacks, the processed
   * events are the applied ones, each applied once, and every balance is the start plus their deltas.
   */
  lemma ExactlyOnce(states: seq<Sys>, labels: seq<Label>, n: nat, a: Account)
    requires Run(states, labels) && n <= |labels|
    ensures DistinctIds(states[n].log) && states[n].db.processed == Ids(states[n].log)
    ensures Visible(states[n].db.rows, a).balance == STARTING_BALANCE + Total(states[n].log, a)
  {
    RunKeepsInv(states, labels, n);
    FoldBalance(states[n].log, a);
  }

  /** A request that was answered 200 names a processed event, whatever happened to the answer. */
  lemma AckedIsProcessed(states: seq<Sys>, labels: seq<Label>, n: nat, i: nat)
    requires Run(states, labels) && n <= |labels| && i < |states[n].answers| && states[n].answers[i].status == OK
    ensures states[n].answers[i].req.event.Some? && states[n].answers[i].req.event.value in states[n].db.processed
  {
    RunKeepsInv(states, labels, n);
    assert Acknowledged(states[n].db, states[n].answers[i]);
  }

  lemma {:induction false} SequentialStatus(answers: seq<Answer>, i: nat)
    requires Sequential(answers) && i < |answers|
    ensures Status(answers[i].req, answers[i].mode, answers[i].status)
  {
    if i == |answers| - 1 {
      ServeEffect(Replay(answers[..i]), answers[i].req, answers[i].mode);
    } else {
      SequentialStatus(answers[..|answers| - 1], i);
    }
  }

  /** The request of an applied trade, let in and answered. */
  predicate LetIn(a: Answer, e: Entry) {
    && a.mode != Down && a.req.verified && a.req.event == Some(e.id) && a.req.trade == Some(e.trade)
    && (a.status == 200 || a.status == 500)
  }

  predicate WasLetIn(answers: seq<Answer>, e: Entry) {
    exists j :: 0 <= j < |answers| && LetIn(answers[j], e)
  }

  ghost predicate AllLetIn(s: Sys) {
    forall i :: 0 <= i < |s.log| ==> WasLetIn(s.answers, s.log[i])
  }

  lemma StepLetsIn(s: Sys, l: Label)
    requires Inv(s) && Enabled(s, l) && AllLetIn(s)
    ensures AllLetIn(Exec(s, l))
  {
    var s' := Exec(s, l);
    forall i | 0 <= i < |s'.log| ensures WasLetIn(s'.answers, s'.log[i]) {
      if i < |s.log| {
        var j :| 0 <= j < |s.answers| && LetIn(s.answers[j], s.log[i]);
        assert s'.answers[j] == s.answers[j];
      } else {
        assert LetIn(s'.answers[|s.answers|], s'.log[i]);
      }
    }
  }

  lemma {:induction false} RunLetsIn(states: seq<Sys>, labels: seq<Label>, n: nat)
    requires Run(states, labels) && n <= |labels|
    ensures AllLetIn(states[n])
  {
    if n > 0 {
      RunLetsIn(states, labels, n - 1);
      RunKeepsInv(states, labels, n - 1);
      StepLetsIn(states[n - 1], labels[n - 1]);
    }
  }

  /**
   * In every run each request is answered 503 when the bank is down, 401 without a valid signature, 400
   * without an event id or a readable trade, and otherwise 200 or, when flaky, 500; and no trade was ever
   * applied without such a 200 or 500: nothing moves money while the bank is down, and no forger does.
   */
  lemma OnlyVerifiedMovesMoney(states: seq<Sys>, labels: seq<Label>, n: nat)
    requires Run(states, labels) && n <= |labels|
    ensures forall i :: 0 <= i < |states[n].answers| ==>
              Status(states[n].answers[i].req, states[n].answers[i].mode, states[n].answers[i].status)
    ensures forall i :: 0 <= i < |states[n].log| ==> WasLetIn(states[n].answers, states[n].log[i])
  {
    RunKeepsInv(states, labels, n);
    RunLetsIn(states, labels, n);
    forall i | 0 <= i < |states[n].answers|
      ensures Status(states[n].answers[i].req, states[n].answers[i].mode, states[n].answers[i].status)
    {
      SequentialStatus(states[n].answers, i);
    }
  }

  /** The locking SELECT always finds its row. */
  lemma LockFindsRow(states: seq<Sys>, labels: seq<Label>, n: nat, t: TxId)
    requires Run(states, labels) && n <= |labels|
    requires t in states[n].txs && states[n].txs[t].phase == RowReady
    ensures states[n].txs[t].req.trade.Some?
    ensures states[n].txs[t].insertedRow || states[n].txs[t].req.trade.value.account in states[n].db.rows
  {
    RunKeepsInv(states, labels, n);
    assert TxInv(states[n].db, states[n].txs[t]);
  }

  // ---------------------------------------------------------------------------
  // The status fields converge
  // ---------------------------------------------------------------------------

  predicate TradeOf(e: Entry, a: Account) {
    e.trade.account == a
  }

  /** `k` is the earliest applied of the latest-executed trades of the account. */
  predicate IsLatest(log: seq<Entry>, a: Account, k: nat) {
    && k < |log| && TradeOf(log[k], a)
    && (forall i :: 0 <= i < |log| && TradeOf(log[i], a) ==> log[i].trade.executedAt <= log[k].trade.executedAt)
    && (forall i :: 0 <= i < k && TradeOf(log[i], a) ==> log[i].trade.executedAt < log[k].trade.executedAt)
  }

  /** The status is that of the latest-executed applied trade; on a tie, of the one applied first. */
  lemma {:induction false} StatusIsLatest(log: seq<Entry>, a: Account) returns (k: nat)
    ensures (forall i :: 0 <= i < |log| ==> !TradeOf(log[i], a)) ==>
              Fold(log, a).status == None && Fold(log, a).statusAsOf == None
    ensures (exists i :: 0 <= i < |log| && TradeOf(log[i], a)) ==>
              && IsLatest(log, a, k)
              && Fold(log, a).status == Some(log[k].trade.description)
              && Fold(log, a).statusAsOf == Some(log[k].trade.executedAt)
  {
    k := 0;
    if log != [] {
      var n := |log| - 1;
      k := StatusIsLatest(log[..n], a);
      assert forall i :: 0 <= i < n ==> log[..n][i] == log[i];
      if TradeOf(log[n], a) {
        var before := Fold(log[..n], a);
        if before.statusAsOf == None || before.statusAsOf.value < log[n].trade.executedAt {
          k := n;
        }
      }
    }
  }

  ghost predicate SameTrades(x: seq<Entry>, y: seq<Entry>) {
    multiset(x) == multiset(y)
  }

  function Without(y: seq<Entry>, k: nat): seq<Entry>
    requires k < |y|
  {
    y[..k] + y[k + 1..]
  }

  lemma TotalConcat(x: seq<Entry>, y: seq<Entry>, a: Account)
    ensures Total(x + y, a) == Total(x, a) + Total(y, a)
  {
    assert TradesIn(x + y) == TradesIn(x) + TradesIn(y);
    SumConcat(TradesIn(x), TradesIn(y), a);
  }

  lemma ThreeParts(x: seq<Entry>, e: seq<Entry>, z: seq<Entry>, a: Account)
    ensures Total(x + e + z, a) == Total(x + z, a) + Total(e, a)
  {
    TotalConcat(x, z, a);
    TotalConcat(x, e, a);
    TotalConcat(x + e, z, a);
  }

  lemma TotalWithout(y: seq<Entry>, k: nat, a: Account)
    requires k < |y|
    ensures Total(y, a) == Total(Without(y, k), a) + Total([y[k]], a)
  {
    ThreeParts(y[..k], [y[k]], y[k + 1..], a);
    assert y == y[..k] + [y[k]] + y[k + 1..];
  }

  lemma SameWithout(y: seq<Entry>, k: nat)
    requires k < |y|
    ensures multiset(Without(y, k)) == multiset(y) - multiset{y[k]}
  {
    assert y == y[..k] + [y[k]] + y[k + 1..];
  }

  lemma SameMembers(x: seq<Entry>, y: seq<Entry>, i: nat)
    requires SameTrades(x, y) && i < |x|
    ensures x[i] in y
  {
    assert x[i] in multiset(x);
  }

  lemma {:induction false} SameTotal(x: seq<Entry>, y: seq<Entry>, a: Account)
    requires SameTrades(x, y)
    ensures Total(x, a) == Total(y, a)
    decreases |x|
  {
    if x == [] {
      assert |multiset(y)| == 0;
    } else {
      var n := |x| - 1;
      SameMembers(x, y, n);
      var k :| 0 <= k < |y| && y[k] == x[n];
      SameWithout(x, n);
      SameWithout(y, k);
      SameTotal(Without(x, n), Without(y, k), a);
      TotalWithout(x, n, a);
      TotalWithout(y, k, a);
    }
  }

  ghost predicate DistinctTimes(log: seq<Entry>, a: Account) {
    forall i, j | 0 <= i < |log| && 0 <= j < |log| && TradeOf(log[i], a) && TradeOf(log[j], a) ::
      log[i].trade.executedAt == log[j].trade.executedAt ==> log[i] == log[j]
  }

  lemma SameBalance(x: seq<Entry>, y: seq<Entry>, a: Account)
    requires SameTrades(x, y)
    ensures Fold(x, a).balance == Fold(y, a).balance
  {
    SameTotal(x, y, a);
    FoldBalance(x, a);
    FoldBalance(y, a);
  }

  /** What is executed latest in one order is executed latest in any other. */
  lemma SameLatest(x: seq<Entry>, y: seq<Entry>, a: Account, k: nat, m: nat)
    requires SameTrades(x, y) && IsLatest(x, a, k) && IsLatest(y, a, m)
    ensures x[k].trade.executedAt == y[m].trade.executedAt
    ensures DistinctTimes(x, a) ==> x[k] == y[m]
  {
    SameMembers(x, y, k);
    SameMembers(y, x, m);
    var i :| 0 <= i < |y| && y[i] == x[k];
    var j :| 0 <= j < |x| && x[j] == y[m];
  }

  /** Any order of the same trades ends with the same balance and timestamp, and the same status when no two tie. */
  lemma OrderDoesNotMatter(x: seq<Entry>, y: seq<Entry>, a: Account)
    requires SameTrades(x, y)
    ensures Fold(x, a).balance == Fold(y, a).balance
    ensures Fold(x, a).statusAsOf == Fold(y, a).statusAsOf
    ensures DistinctTimes(x, a) ==> Fold(x, a) == Fold(y, a)
  {
    SameBalance(x, y, a);
    var k := StatusIsLatest(x, a);
    var m := StatusIsLatest(y, a);
    if i :| 0 <= i < |x| && TradeOf(x[i], a) {
      SameMembers(x, y, i);
      SameLatest(x, y, a, k, m);
    } else {
      forall j | 0 <= j < |y| ensures !TradeOf(y[j], a) {
        SameMembers(y, x, j);
      }
    }
  }

  /** An event carries the same trade wherever it was applied. */
  ghost predicate SameEvents(x: seq<Entry>, y: seq<Entry>) {
    Ids(x) == Ids(y) && forall i, j | 0 <= i < |x| && 0 <= j < |y| :: x[i].id == y[j].id ==> x[i] == y[j]
  }

  lemma {:induction false} CountOnce(x: seq<Entry>, e: Entry)
    requires DistinctIds(x)
    ensures multiset(x)[e] == if e in x then 1 else 0
  {
    if x != [] {
      var n := |x| - 1;
      CountOnce(x[..n], e);
      assert x == x[..n] + [x[n]];
    }
  }

  lemma SameMember(x: seq<Entry>, y: seq<Entry>, i: nat)
    requires SameEvents(x, y) && i < |x|
    ensures x[i] in y
  {
    assert x[i].id in Ids(x);
    var j :| 0 <= j < |y| && y[j].id == x[i].id;
  }

  /** Logs without repetition that apply the same events are reorderings of each other. */
  lemma SameEventsSameTrades(x: seq<Entry>, y: seq<Entry>)
    requires DistinctIds(x) && DistinctIds(y) && SameEvents(x, y)
    ensures SameTrades(x, y)
  {
    forall e ensures multiset(x)[e] == multiset(y)[e] {
      CountOnce(x, e);
      CountOnce(y, e);
      if e in x {
        var i :| 0 <= i < |x| && x[i] == e;
        SameMember(x, y, i);
      }
      if e in y {
        var j :| 0 <= j < |y| && y[j] == e;
        SameMember(y, x, j);
      }
    }
  }

  /**
   * Convergence: two runs of the bank, with any interleavings, orders, repetitions, refusals and
   * aborts, that have processed the same events with the same trades, have the same balance and status
   * timestamp for every account, and the same row when no two of its trades tie.
   */
  lemma RunsConverge(states: seq<Sys>, labels: seq<Label>, n: nat, states': seq<Sys>, labels': seq<Label>, n': nat,
                     a: Account)
    requires Run(states, labels) && n <= |labels| && Run(states', labels') && n' <= |labels'|
    requires states[n].db.processed == states'[n'].db.processed
    requires forall i, j | 0 <= i < |states[n].log| && 0 <= j < |states'[n'].log| ::
               states[n].log[i].id == states'[n'].log[j].id ==> states[n].log[i].trade == states'[n'].log[j].trade
    ensures var row, row' := Visible(states[n].db.rows, a), Visible(states'[n'].db.rows, a);
      && row.balance == row'.balance && row.statusAsOf == row'.statusAsOf
      && (DistinctTimes(states[n].log, a) ==> row == row')
  {
    RunKeepsInv(states, labels, n);
    RunKeepsInv(states', labels', n');
    SameEventsSameTrades(states[n].log, states'[n'].log);
    OrderDoesNotMatter(states[n].log, states'[n'].log, a);
  }

  /** The log only grows. */
  lemma {:induction false} LogGrows(states: seq<Sys>, labels: seq<Label>, n: nat, m: nat)
    requires Run(states, labels) && n <= m <= |labels|
    ensures states[n].log <= states[m].log
    decreases m
  {
    if n < m {
      LogGrows(states, labels, n, m - 1);
    }
  }

  lemma {:induction false} FoldForward(log: seq<Entry>, n: nat, a: Account)
    requires n <= |log| && Fold(log[..n], a).statusAsOf.Some?
    ensures Fold(log, a).statusAsOf.Some? && Fold(log[..n], a).statusAsOf.value <= Fold(log, a).statusAsOf.value
    decreases |log|
  {
    if n < |log| {
      assert log[..|log| - 1][..n] == log[..n];
      FoldForward(log[..|log| - 1], n, a);
    } else {
      assert log[..n] == log;
    }
  }

  /** Late retries never overwrite fresher state: along every run the status timestamp only moves forward. */
  lemma StatusNeverMovesBack(states: seq<Sys>, labels: seq<Label>, n: nat, m: nat, a: Account)
    requires Run(states, labels) && n <= m <= |labels|
    requires Visible(states[n].db.rows, a).statusAsOf.Some?
    ensures Visible(states[m].db.rows, a).statusAsOf.Some?
    ensures Visible(states[n].db.rows, a).statusAsOf.value <= Visible(states[m].db.rows, a).statusAsOf.value
  {
    RunKeepsInv(states, labels, n);
    RunKeepsInv(states, labels, m);
    LogGrows(states, labels, n, m);
    assert states[m].log[..|states[n].log|] == states[n].log;
    FoldForward(states[m].log, |states[n].log|, a);
  }
}
