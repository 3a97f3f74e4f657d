/**
 * The delivery queue under concurrency: any number of worker loops, each running recover, claim and
 * a whole batch in one READ COMMITTED transaction (app/worker/__main__.py, app/worker/delivery_worker.py),
 * beside redrive requests and ingestion.
 *
 * A transaction's writes are private until it commits, and the rows it has written stay locked until
 * it ends. Nothing here says in which order steps happen: a run is any interleaving.
 */
module Queue {
  import opened Prelude
  import opened Worker

  type WorkerId = nat
  type RequestId = nat

  /** An open worker transaction. Its row locks are the rows in `writes`. */
  datatype Tx = Tx(name: string, recoveredAt: Time, claimed: bool, claimedAt: Time, ids: seq<Id>,
                   posted: nat, replies: map<Id, Reply>, writes: map<Id, Delivery>)

  /** What a committed transaction did. */
  datatype Commit =
    | Batched(batch: Batch)
    | Redriven(id: Id, at: Time)
    | Ingested(rows: map<Id, Delivery>)

  /** Committed table, open transactions, redrive requests between their read and their write, commit log. */
  datatype Sys = Sys(table: Table, txs: map<WorkerId, Tx>, readers: map<RequestId, Id>, log: seq<Commit>)

  datatype Label =
    | Recover(w: WorkerId, name: string, now: Time)
    | Claim(w: WorkerId, now: Time, ids: seq<Id>)
    | Post(w: WorkerId, reply: Reply)
    | Commit(w: WorkerId)
    | Abort(w: WorkerId)
    | RedriveRead(q: RequestId, id: Id)
    | RedriveWrite(q: RequestId, now: Time)
    | RedriveAbort(q: RequestId)
    | Ingest(rows: map<Id, Delivery>)

  /** What transaction `t` sees: the committed rows under its own writes. */
  function View(table: Table, t: Tx): Table {
    Table(table.rows + t.writes)
  }

  function LockedByOthers(s: Sys, w: WorkerId): set<Id> {
    set v, d | v in s.txs && v != w && d in s.txs[v].writes :: d
  }

  predicate Locked(s: Sys, d: Id) {
    exists w :: w in s.txs && d in s.txs[w].writes
  }

  /** `_recover_expired_leases` opens the transaction and locks the rows it resets. */
  function BeginTx(table: Table, name: string, now: Time): Tx {
    var writes := map d | d in table.rows && LeaseExpired(table.rows[d], now) :: RecoverRow(table.rows[d], now);
    Tx(name, now, false, now, [], 0, map[], writes)
  }

  function ClaimTx(cfg: Settings, table: Table, t: Tx, now: Time, ids: seq<Id>): Tx {
    var view := View(table, t).rows;
    var leased := map d | d in view && d in ids :: ClaimRow(view[d], now + cfg.lease, t.name);
    t.(claimed := true, claimedAt := now, ids := ids, writes := t.writes + leased)
  }

  /** The next delivery of the batch can be posted: a conflicting attempt number would make the flush raise. */
  predicate CanPost(table: Table, t: Tx, reply: Reply) {
    && t.claimed && t.posted < |t.ids|
    && t.claimedAt <= reply.startedAt <= reply.finishedAt
    && t.ids[t.posted] in View(table, t).rows
    && !Taken(View(table, t).rows[t.ids[t.posted]])
  }

  function PostTx(cfg: Settings, table: Table, t: Tx, reply: Reply): Tx
    requires CanPost(table, t, reply)
  {
    var d := t.ids[t.posted];
    var row := ProcessRow(cfg, View(table, t).rows[d], reply, t.name);
    t.(posted := t.posted + 1, replies := t.replies[d := reply], writes := t.writes[d := row])
  }

  predicate FreshRow(row: Delivery) {
    row.status == Pending && row.attemptCount == 0 && row.leasedUntil == None && row.attempts == map[]
  }

  function RedriveRow(row: Delivery, now: Time): Delivery {
    row.(status := Pending, nextAttemptAt := now, leasedUntil := None)
  }

  ghost predicate Enabled(cfg: Settings, s: Sys, l: Label) {
    match l
    case Recover(w, _, now) =>
      // the UPDATE waits for every matching row that another transaction holds
      && w !in s.txs
      && forall d :: d in s.table.rows && LeaseExpired(s.table.rows[d], now) ==> !Locked(s, d)
    case Claim(w, now, ids) =>
      // FOR UPDATE SKIP LOCKED
      && w in s.txs && !s.txs[w].claimed
      && ClaimAnswer(View(s.table, s.txs[w]), now, cfg.batchSize, LockedByOthers(s, w), ids)
    case Post(w, reply) => w in s.txs && CanPost(s.table, s.txs[w], reply)
    case Commit(w) => w in s.txs && s.txs[w].claimed && s.txs[w].posted == |s.txs[w].ids|
    case Abort(w) => w in s.txs
    case RedriveRead(q, d) =>
      q !in s.readers && d in s.table.rows && s.table.rows[d].status == DeadLettered
    case RedriveWrite(q, _) =>
      // the status was checked when it was read; the UPDATE only waits for the row lock
      q in s.readers && s.readers[q] in s.table.rows && !Locked(s, s.readers[q])
    case RedriveAbort(q) => q in s.readers
    case Ingest(rows) => rows.Keys !! s.table.rows.Keys && forall d :: d in rows ==> FreshRow(rows[d])
  }

  function BatchOf(t: Tx): Batch {
    Batch(t.name, t.recoveredAt, t.claimedAt, t.ids, t.replies)
  }

  ghost function Exec(cfg: Settings, s: Sys, l: Label): Sys
    requires Enabled(cfg, s, l)
  {
    match l
    case Recover(w, name, now) => s.(txs := s.txs[w := BeginTx(s.table, name, now)])
    case Claim(w, now, ids) => s.(txs := s.txs[w := ClaimTx(cfg, s.table, s.txs[w], now, ids)])
    case Post(w, reply) => s.(txs := s.txs[w := PostTx(cfg, s.table, s.txs[w], reply)])
    case Commit(w) =>
      var t := s.txs[w];
      s.(table := View(s.table, t), txs := s.txs - {w}, log := s.log + [Batched(BatchOf(t))])
    case Abort(w) => s.(txs := s.txs - {w})
    case RedriveRead(q, d) => s.(readers := s.readers[q := d])
    case RedriveWrite(q, now) =>
      var d := s.readers[q];
      s.(table := Table(s.table.rows[d := RedriveRow(s.table.rows[d], now)]),
         readers := s.readers - {q}, log := s.log + [Redriven(d, now)])
    case RedriveAbort(q) => s.(readers := s.readers - {q})
    case Ingest(rows) => s.(table := Table(s.table.rows + rows), log := s.log + [Ingested(rows)])
  }

  ghost predicate Step(cfg: Settings, s: Sys, l: Label, s': Sys) {
    Enabled(cfg, s, l) && s' == Exec(cfg, s, l)
  }

  ghost predicate Start(s: Sys) {
    s.txs == map[] && s.readers == map[] && s.log == []
  }

  /** Any finite interleaving, from any table. */
  ghost predicate Run(cfg: Settings, states: seq<Sys>, labels: seq<Label>) {
    && |states| == |labels| + 1
    && Start(states[0])
    && forall i :: 0 <= i < |labels| ==> Step(cfg, states[i], labels[i], states[i + 1])
  }

  // ---------------------------------------------------------------------------
  // The serial system: whole commits, one after another
  // ---------------------------------------------------------------------------

  function ApplyCommit(cfg: Settings, table: Table, c: Commit): Table {
    match c
    case Batched(b) => RunBatch(cfg, table, b)
    case Redriven(d, now) =>
      if d in table.rows then Table(table.rows[d := RedriveRow(table.rows[d], now)]) else table
    case Ingested(rows) => Table(table.rows + rows)
  }

  function Replay(cfg: Settings, table: Table, log: seq<Commit>): Table {
    if log == [] then table
    else ApplyCommit(cfg, Replay(cfg, table, log[..|log| - 1]), log[|log| - 1])
  }

  /** A claim of distinct due rows within the batch size, earliest first. */
  ghost predicate SoundClaim(table: Table, now: Time, limit: nat, ids: seq<Id>) {
    && Distinct(ids) && |ids| <= limit
    && (forall i :: 0 <= i < |ids| ==> ids[i] in table.rows && IsDue(table.rows[ids[i]], now))
    && (forall i, j :: 0 <= i < j < |ids| ==> table.rows[ids[i]].nextAttemptAt <= table.rows[ids[j]].nextAttemptAt)
  }

  ghost predicate Timely(replies: map<Id, Reply>, from: Time) {
    forall d :: d in replies ==> from <= replies[d].startedAt <= replies[d].finishedAt
  }

  ghost predicate Legal(cfg: Settings, table: Table, c: Commit) {
    match c
    case Batched(b) =>
      && SoundClaim(Worker.Recover(table, b.recoveredAt), b.claimedAt, cfg.batchSize, b.ids)
      && b.replies.Keys == Elems(b.ids)
      && Timely(b.replies, b.claimedAt)
    case Redriven(d, _) => d in table.rows
    case Ingested(rows) => rows.Keys !! table.rows.Keys && forall d :: d in rows ==> FreshRow(rows[d])
  }

  ghost predicate LegalLog(cfg: Settings, table: Table, log: seq<Commit>) {
    log == [] ||
    (LegalLog(cfg, table, log[..|log| - 1]) && Legal(cfg, Replay(cfg, table, log[..|log| - 1]), log[|log| - 1]))
  }

  lemma ReplaySnoc(cfg: Settings, table: Table, log: seq<Commit>, c: Commit)
    ensures Replay(cfg, table, log + [c]) == ApplyCommit(cfg, Replay(cfg, table, log), c)
    ensures LegalLog(cfg, table, log + [c]) == (LegalLog(cfg, table, log) && Legal(cfg, Replay(cfg, table, log), c))
  {
    assert (log + [c])[..|log|] == log;
  }

  // ---------------------------------------------------------------------------
  // The invariant
  // ---------------------------------------------------------------------------

  /** The serial run, on one committed row, of as much of its batch as transaction `t` has done. */
  function PartialRow(cfg: Settings, row: Delivery, d: Id, t: Tx): Delivery {
    var recovered := RecoverRow(row, t.recoveredAt);
    if d !in t.ids then recovered
    else
      var claimed := ClaimRow(recovered, t.claimedAt + cfg.lease, t.name);
      if d in t.replies then ProcessRow(cfg, claimed, t.replies[d], t.name) else claimed
  }

  ghost predicate RowInv(cfg: Settings, row: Delivery, d: Id, t: Tx) {
    && (d in t.writes <==> d in t.ids || LeaseExpired(row, t.recoveredAt))
    && (d in t.writes ==> t.writes[d] == PartialRow(cfg, row, d, t))
    && (d in t.ids ==> IsDue(RecoverRow(row, t.recoveredAt), t.claimedAt))
  }

  ghost predicate TxInv(cfg: Settings, table: Table, t: Tx) {
    && t.writes.Keys <= table.rows.Keys
    && (forall d :: d in table.rows ==> RowInv(cfg, table.rows[d], d, t))
    && Distinct(t.ids) && |t.ids| <= cfg.batchSize && (!t.claimed ==> t.ids == [])
    && (forall i :: 0 <= i < |t.ids| ==> t.ids[i] in table.rows)
    && (forall i, j :: 0 <= i < j < |t.ids| ==>
          table.rows[t.ids[i]].nextAttemptAt <= table.rows[t.ids[j]].nextAttemptAt)
    && t.posted <= |t.ids| && t.replies.Keys == First(t.ids, t.posted)
    && Timely(t.replies, t.claimedAt)
  }

  ghost predicate Disjoint(txs: map<WorkerId, Tx>) {
    forall v, w :: v in txs && w in txs && v != w ==> txs[v].writes.Keys !! txs[w].writes.Keys
  }

  ghost predicate Inv(cfg: Settings, init: Table, s: Sys) {
    && s.table == Replay(cfg, init, s.log)
    && LegalLog(cfg, init, s.log)
    && Disjoint(s.txs)
    && (forall w :: w in s.txs ==> TxInv(cfg, s.table, s.txs[w]))
  }

  // --- what a transaction does by itself ---

  lemma BeginTxInv(cfg: Settings, table: Table, name: string, now: Time)
    ensures TxInv(cfg, table, BeginTx(table, name, now))
  {
  }

  lemma ClaimRowInv(cfg: Settings, table: Table, t: Tx, now: Time, ids: seq<Id>, d: Id)
    requires t.ids == [] && t.replies == map[] && d in table.rows && RowInv(cfg, table.rows[d], d, t)
    requires d in ids ==> IsDue(View(table, t).rows[d], now)
    ensures RowInv(cfg, table.rows[d], d, ClaimTx(cfg, table, t, now, ids))
  {
  }

  lemma ClaimTxInv(cfg: Settings, table: Table, t: Tx, now: Time, skip: set<Id>, ids: seq<Id>)
    requires TxInv(cfg, table, t) && !t.claimed && ClaimAnswer(View(table, t), now, cfg.batchSize, skip, ids)
    ensures TxInv(cfg, table, ClaimTx(cfg, table, t, now, ids))
    ensures forall d :: d in ClaimTx(cfg, table, t, now, ids).writes ==> d in t.writes || d !in skip
  {
    var t' := ClaimTx(cfg, table, t, now, ids);
    assert t.replies.Keys == {} && t.posted == 0;
    forall d | d in table.rows ensures RowInv(cfg, table.rows[d], d, t') {
      ClaimRowInv(cfg, table, t, now, ids, d);
    }
    forall i | 0 <= i < |ids| ensures ids[i] in table.rows &&
        View(table, t).rows[ids[i]].nextAttemptAt == table.rows[ids[i]].nextAttemptAt {
      assert ids[i] in ids;
      assert RowInv(cfg, table.rows[ids[i]], ids[i], t);
    }
  }

  lemma PostReplies(cfg: Settings, table: Table, t: Tx, reply: Reply)
    requires CanPost(table, t, reply) && Distinct(t.ids)
    requires t.replies.Keys == First(t.ids, t.posted) && Timely(t.replies, t.claimedAt)
    ensures t.ids[t.posted] !in t.replies
    ensures var t' := PostTx(cfg, table, t, reply);
      t'.replies.Keys == First(t.ids, t'.posted) && Timely(t'.replies, t.claimedAt)
  {
    FirstStep(t.ids, t.posted);
  }

  lemma PostRow(cfg: Settings, table: Table, t: Tx, reply: Reply, e: Id)
    requires CanPost(table, t, reply) && t.ids[t.posted] !in t.replies
    requires e in table.rows && RowInv(cfg, table.rows[e], e, t)
    ensures RowInv(cfg, table.rows[e], e, PostTx(cfg, table, t, reply))
  {
  }

  lemma PostTxInv(cfg: Settings, table: Table, t: Tx, reply: Reply)
    requires TxInv(cfg, table, t) && CanPost(table, t, reply)
    ensures TxInv(cfg, table, PostTx(cfg, table, t, reply))
    ensures PostTx(cfg, table, t, reply).writes.Keys == t.writes.Keys
  {
    var t' := PostTx(cfg, table, t, reply);
    PostReplies(cfg, table, t, reply);
    assert RowInv(cfg, table.rows[t.ids[t.posted]], t.ids[t.posted], t);
    assert t'.writes.Keys == t.writes.Keys;
    forall e | e in table.rows ensures RowInv(cfg, table.rows[e], e, t') {
      PostRow(cfg, table, t, reply, e);
    }
  }

  lemma BatchRow(cfg: Settings, table: Table, t: Tx, d: Id)
    requires d in table.rows
    ensures RunBatch(cfg, table, BatchOf(t)).rows[d] ==
            if d in t.ids || d !in t.replies then PartialRow(cfg, table.rows[d], d, t)
            else ProcessRow(cfg, RecoverRow(table.rows[d], t.recoveredAt), t.replies[d], t.name)
  {
  }

  /** A complete transaction commits exactly its batch, run on the committed table. */
  lemma CompleteTx(cfg: Settings, table: Table, t: Tx)
    requires TxInv(cfg, table, t) && t.claimed
    ensures View(table, t) == RunBatch(cfg, table, BatchOf(t))
  {
    var view, after := View(table, t).rows, RunBatch(cfg, table, BatchOf(t)).rows;
    assert view.Keys == after.Keys == table.rows.Keys;
    forall d | d in table.rows ensures view[d] == after[d] {
      assert RowInv(cfg, table.rows[d], d, t);
      BatchRow(cfg, table, t, d);
    }
    assert view == after;
  }

  /** No in-flight row is ever committed. */
  lemma CompleteWrites(cfg: Settings, table: Table, t: Tx)
    requires TxInv(cfg, table, t) && t.posted == |t.ids|
    ensures forall d :: d in t.writes ==> t.writes[d].status != InFlight
  {
    forall d | d in t.writes ensures t.writes[d].status != InFlight {
      assert RowInv(cfg, table.rows[d], d, t);
    }
  }

  lemma CompleteLegal(cfg: Settings, table: Table, t: Tx)
    requires TxInv(cfg, table, t) && t.posted == |t.ids|
    ensures Legal(cfg, table, Batched(BatchOf(t)))
  {
    forall i | 0 <= i < |t.ids|
      ensures t.ids[i] in table.rows && IsDue(RecoverRow(table.rows[t.ids[i]], t.recoveredAt), t.claimedAt)
    {
      assert RowInv(cfg, table.rows[t.ids[i]], t.ids[i], t);
    }
  }

  /** Committing rows that an open transaction has not locked changes nothing for it. */
  lemma TxFrame(cfg: Settings, table: Table, t: Tx, rows: map<Id, Delivery>)
    requires TxInv(cfg, table, t) && rows.Keys !! t.writes.Keys
    requires forall d :: d in rows ==> rows[d].status != InFlight
    ensures TxInv(cfg, Table(table.rows + rows), t)
  {
    forall i | 0 <= i < |t.ids| ensures t.ids[i] !in rows {
      assert RowInv(cfg, table.rows[t.ids[i]], t.ids[i], t);
    }
    forall d | d in table.rows && d !in rows ensures RowInv(cfg, table.rows[d], d, t) {
    }
  }

  // --- what a step does to the system ---

  /** Transaction `w` moves on to `t`, and the committed table stays. */
  lemma TxMoves(cfg: Settings, init: Table, s: Sys, w: WorkerId, t: Tx)
    requires Inv(cfg, init, s) && TxInv(cfg, s.table, t)
    requires forall v :: v in s.txs && v != w ==> s.txs[v].writes.Keys !! t.writes.Keys
    ensures Inv(cfg, init, s.(txs := s.txs[w := t]))
  {
  }

  /** The rows `rows` are committed as `c`, which no open transaction in `txs` has locked. */
  lemma TableMoves(cfg: Settings, init: Table, s: Sys, rows: map<Id, Delivery>, txs: map<WorkerId, Tx>, c: Commit)
    requires Inv(cfg, init, s)
    requires forall w :: w in txs ==> w in s.txs && txs[w] == s.txs[w] && rows.Keys !! txs[w].writes.Keys
    requires forall d :: d in rows ==> rows[d].status != InFlight
    requires Table(s.table.rows + rows) == ApplyCommit(cfg, s.table, c) && Legal(cfg, s.table, c)
    ensures Inv(cfg, init, s.(table := Table(s.table.rows + rows), txs := txs, log := s.log + [c]))
  {
    ReplaySnoc(cfg, init, s.log, c);
    forall w | w in txs ensures TxInv(cfg, Table(s.table.rows + rows), txs[w]) {
      TxFrame(cfg, s.table, s.txs[w], rows);
    }
  }

  lemma RecoverStep(cfg: Settings, init: Table, s: Sys, w: WorkerId, name: string, now: Time)
    requires Inv(cfg, init, s) && Enabled(cfg, s, Label.Recover(w, name, now))
    ensures Inv(cfg, init, Exec(cfg, s, Label.Recover(w, name, now)))
  {
    var t := BeginTx(s.table, name, now);
    BeginTxInv(cfg, s.table, name, now);
    forall v | v in s.txs ensures s.txs[v].writes.Keys !! t.writes.Keys {
      forall d | d in t.writes ensures d !in s.txs[v].writes {
        assert !Locked(s, d);
      }
    }
    TxMoves(cfg, init, s, w, t);
  }

  lemma ClaimStep(cfg: Settings, init: Table, s: Sys, w: WorkerId, now: Time, ids: seq<Id>)
    requires Inv(cfg, init, s) && Enabled(cfg, s, Label.Claim(w, now, ids))
    ensures Inv(cfg, init, Exec(cfg, s, Label.Claim(w, now, ids)))
  {
    var t := ClaimTx(cfg, s.table, s.txs[w], now, ids);
    ClaimTxInv(cfg, s.table, s.txs[w], now, LockedByOthers(s, w), ids);
    forall v | v in s.txs && v != w ensures s.txs[v].writes.Keys !! t.writes.Keys {
      forall d | d in t.writes ensures d !in s.txs[v].writes {
        assert d in s.txs[v].writes ==> d in LockedByOthers(s, w);
      }
    }
    TxMoves(cfg, init, s, w, t);
  }

  lemma CommitStep(cfg: Settings, init: Table, s: Sys, w: WorkerId)
    requires Inv(cfg, init, s) && Enabled(cfg, s, Label.Commit(w))
    ensures Inv(cfg, init, Exec(cfg, s, Label.Commit(w)))
  {
    CompleteTx(cfg, s.table, s.txs[w]);
    CompleteWrites(cfg, s.table, s.txs[w]);
    CompleteLegal(cfg, s.table, s.txs[w]);
    TableMoves(cfg, init, s, s.txs[w].writes, s.txs - {w}, Batched(BatchOf(s.txs[w])));
  }

  /** Requests that have only read hold no lock. */
  lemma ReadersLockNothing(cfg: Settings, init: Table, s: Sys, readers: map<RequestId, Id>)
    requires Inv(cfg, init, s)
    ensures Inv(cfg, init, s.(readers := readers))
  {
  }

  lemma RedriveStep(cfg: Settings, init: Table, s: Sys, q: RequestId, now: Time)
    requires Inv(cfg, init, s) && Enabled(cfg, s, RedriveWrite(q, now))
    ensures Inv(cfg, init, Exec(cfg, s, RedriveWrite(q, now)))
  {
    var d := s.readers[q];
    var change := map[d := RedriveRow(s.table.rows[d], now)];
    assert change.Keys == {d} && s.table.rows[d := RedriveRow(s.table.rows[d], now)] == s.table.rows + change;
    forall w | w in s.txs ensures change.Keys !! s.txs[w].writes.Keys {
      assert !Locked(s, d);
    }
    TableMoves(cfg, init, s, change, s.txs, Redriven(d, now));
    var moved := s.(table := Table(s.table.rows + change), txs := s.txs, log := s.log + [Redriven(d, now)]);
    ReadersLockNothing(cfg, init, moved, s.readers - {q});
  }

  lemma StepKeepsInv(cfg: Settings, init: Table, s: Sys, l: Label, s': Sys)
    requires Inv(cfg, init, s) && Step(cfg, s, l, s')
    ensures Inv(cfg, init, s')
  {
    match l
    case Recover(w, name, now) => RecoverStep(cfg, init, s, w, name, now);
    case Claim(w, now, ids) => ClaimStep(cfg, init, s, w, now, ids);
    case Post(w, reply) =>
      PostTxInv(cfg, s.table, s.txs[w], reply);
      TxMoves(cfg, init, s, w, PostTx(cfg, s.table, s.txs[w], reply));
    case Commit(w) => CommitStep(cfg, init, s, w);
    case RedriveWrite(q, now) => RedriveStep(cfg, init, s, q, now);
    case Ingest(rows) =>
      TableMoves(cfg, init, s, rows, s.txs, Ingested(rows));
    case _ =>
  }

  lemma {:induction false} RunKeepsInv(cfg: Settings, states: seq<Sys>, labels: seq<Label>, n: nat)
    requires Run(cfg, states, labels) && n <= |labels|
    ensures Inv(cfg, states[0].table, states[n])
  {
    if n > 0 {
      RunKeepsInv(cfg, states, labels, n - 1);
      StepKeepsInv(cfg, states[0].table, states[n - 1], labels[n - 1], states[n]);
    }
  }
}
