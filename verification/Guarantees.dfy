/**
 * What the delivery queue guarantees over every run: serializability, attempt accounting, no lost
 * work, retry spacing, and what a stale redrive can undo.
 */
module Guarantees {
  import opened Prelude
  import opened Worker
  import opened Queue
  import Backoff

  // ---------------------------------------------------------------------------
  // Concurrency
  // ---------------------------------------------------------------------------

  /**
   * Serializability: after any interleaving, with crashes and rollbacks anywhere, the committed table
   * is what the committed batches, redrives and ingestions make of the initial table when run whole,
   * one after another, in commit order; and each of them was a legal move at that point.
   */
  lemma Serializable(cfg: Settings, states: seq<Sys>, labels: seq<Label>, n: nat)
    requires Run(cfg, states, labels) && n <= |labels|
    ensures states[n].table == Replay(cfg, states[0].table, states[n].log)
    ensures LegalLog(cfg, states[0].table, states[n].log)
  {
    RunKeepsInv(cfg, states, labels, n);
  }

  /** No delivery is ever in the hands of two open transactions. */
  lemma ClaimsDisjoint(cfg: Settings, states: seq<Sys>, labels: seq<Label>, n: nat, v: WorkerId, w: WorkerId)
    requires Run(cfg, states, labels) && n <= |labels|
    requires v in states[n].txs && w in states[n].txs && v != w
    ensures forall d :: d in states[n].txs[v].ids ==> d !in states[n].txs[w].ids
    ensures states[n].txs[v].writes.Keys !! states[n].txs[w].writes.Keys
  {
    RunKeepsInv(cfg, states, labels, n);
    forall d | d in states[n].txs[v].ids && d in states[n].txs[w].ids
      ensures d in states[n].txs[v].writes && d in states[n].txs[w].writes
    {
      assert RowInv(cfg, states[n].table.rows[d], d, states[n].txs[v]);
      assert RowInv(cfg, states[n].table.rows[d], d, states[n].txs[w]);
    }
  }

  lemma InFlightLease(cfg: Settings, table: Table, d: Id, t: Tx)
    requires TxInv(cfg, table, t) && d in t.writes
    ensures t.writes[d].status == InFlight ==>
              t.writes[d].leasedUntil == Some(t.claimedAt + cfg.lease) && t.writes[d].claimedBy == Some(t.name)
  {
    assert RowInv(cfg, table.rows[d], d, t);
  }

  /** A claimed delivery is always leased inside its transaction, and in-flight rows are never committed. */
  lemma InFlightIsPrivateAndLeased(cfg: Settings, states: seq<Sys>, labels: seq<Label>, n: nat, w: WorkerId, d: Id)
    requires Run(cfg, states, labels) && n <= |labels| && w in states[n].txs && d in states[n].txs[w].writes
    ensures var row := states[n].txs[w].writes[d];
      row.status == InFlight ==>
        row.leasedUntil == Some(states[n].txs[w].claimedAt + cfg.lease) && row.claimedBy == Some(states[n].txs[w].name)
  {
    RunKeepsInv(cfg, states, labels, n);
    InFlightLease(cfg, states[n].table, d, states[n].txs[w]);
  }

  // ---------------------------------------------------------------------------
  // One commit, one row
  // ---------------------------------------------------------------------------

  function AfterRecoverAndClaim(cfg: Settings, row: Delivery, b: Batch): Delivery {
    ClaimRow(RecoverRow(row, b.recoveredAt), b.claimedAt + cfg.lease, b.name)
  }

  /** A legal commit, seen from one row that was already there. */
  lemma CommitRow(cfg: Settings, table: Table, c: Commit, d: Id)
    requires Legal(cfg, table, c) && d in table.rows
    ensures d in ApplyCommit(cfg, table, c).rows
    ensures var row, after := table.rows[d], ApplyCommit(cfg, table, c).rows[d];
      match c
      case Batched(b) =>
        if d in b.ids then
          d in b.replies && IsDue(RecoverRow(row, b.recoveredAt), b.claimedAt) &&
          b.claimedAt <= b.replies[d].startedAt <= b.replies[d].finishedAt &&
          after == ProcessRow(cfg, AfterRecoverAndClaim(cfg, row, b), b.replies[d], b.name)
        else after == RecoverRow(row, b.recoveredAt)
      case Redriven(e, now) => after == if d == e then RedriveRow(row, now) else row
      case Ingested(_) => after == row
  {
    match c
    case Batched(b) =>
      assert d in b.ids <==> d in b.replies;
    case _ =>
  }

  // ---------------------------------------------------------------------------
  // Attempt accounting
  // ---------------------------------------------------------------------------

  /** How many committed redrives of `d` the log holds. */
  function Redrives(log: seq<Commit>, d: Id): nat {
    if log == [] then 0
    else Redrives(log[..|log| - 1], d) + (if log[|log| - 1].Redriven? && log[|log| - 1].id == d then 1 else 0)
  }

  /** How many committed batches attempted `d`. */
  function Tries(log: seq<Commit>, d: Id): nat {
    if log == [] then 0
    else Tries(log[..|log| - 1], d) + (if log[|log| - 1].Batched? && d in log[|log| - 1].batch.ids then 1 else 0)
  }

  /** Within the limit of M attempts plus one per redrive, strictly while an attempt is still to come. */
  predicate WithinLimit(cfg: Settings, row: Delivery, redrives: nat) {
    && row.attemptCount <= cfg.maxAttempts + redrives
    && (row.status == Pending || row.status == InFlight ==> row.attemptCount < cfg.maxAttempts + redrives)
  }

  ghost predicate StartAccounted(cfg: Settings, table: Table) {
    Accounted(table) && forall d :: d in table.rows ==> WithinLimit(cfg, table.rows[d], 0)
  }

  lemma AttemptAccounted(cfg: Settings, row: Delivery, reply: Reply, worker: string, redrives: nat)
    requires RowAccounted(row) && WithinLimit(cfg, row, redrives) && (row.status == Pending || row.status == InFlight)
    ensures var after := ProcessRow(cfg, row, reply, worker);
      RowAccounted(after) && WithinLimit(cfg, after, redrives) && after.attemptCount == row.attemptCount + 1
  {
  }

  lemma RedriveAccounted(cfg: Settings, row: Delivery, now: Time, redrives: nat)
    requires RowAccounted(row) && WithinLimit(cfg, row, redrives)
    ensures RowAccounted(RedriveRow(row, now)) && WithinLimit(cfg, RedriveRow(row, now), redrives + 1)
  {
  }

  /** A legal commit keeps a row's attempts gapless and within its limit, and counts at most one more. */
  lemma CommitAccounting(cfg: Settings, table: Table, c: Commit, d: Id, redrives: nat)
    requires Legal(cfg, table, c) && d in table.rows
    requires RowAccounted(table.rows[d]) && WithinLimit(cfg, table.rows[d], redrives)
    ensures var row, after := table.rows[d], ApplyCommit(cfg, table, c).rows;
      && d in after && RowAccounted(after[d])
      && WithinLimit(cfg, after[d], redrives + if c.Redriven? && c.id == d then 1 else 0)
      && after[d].attemptCount == row.attemptCount + if c.Batched? && d in c.batch.ids then 1 else 0
  {
    var row := table.rows[d];
    CommitRow(cfg, table, c, d);
    match c
    case Batched(b) =>
      if d in b.ids {
        AttemptAccounted(cfg, AfterRecoverAndClaim(cfg, row, b), b.replies[d], b.name, redrives);
      }
    case Redriven(_, now) => RedriveAccounted(cfg, row, now, redrives);
    case Ingested(_) =>
  }

  lemma {:induction false} LogAccounting(cfg: Settings, init: Table, log: seq<Commit>, d: Id)
    requires LegalLog(cfg, init, log) && StartAccounted(cfg, init)
    ensures var after := Replay(cfg, init, log);
      && (d in init.rows ==> d in after.rows)
      && (d in after.rows ==>
            && RowAccounted(after.rows[d])
            && WithinLimit(cfg, after.rows[d], Redrives(log, d))
            && after.rows[d].attemptCount == (if d in init.rows then init.rows[d].attemptCount else 0) + Tries(log, d))
      && (d !in after.rows ==> Tries(log, d) == 0)
  {
    if log != [] {
      var before, c := log[..|log| - 1], log[|log| - 1];
      LogAccounting(cfg, init, before, d);
      if d in Replay(cfg, init, before).rows {
        CommitAccounting(cfg, Replay(cfg, init, before), c, d, Redrives(before, d));
      }
    }
  }

  lemma {:induction false} AttemptsCard(row: Delivery, k: nat)
    requires RowAccounted(row) && k <= row.attemptCount
    ensures |set n: nat | n in row.attempts && n <= k| == k
  {
    var upTo := set n: nat | n in row.attempts && n <= k;
    if k == 0 {
      assert upTo == {};
    } else {
      AttemptsCard(row, k - 1);
      assert upTo == (set n: nat | n in row.attempts && n <= k - 1) + {k};
    }
  }

  /**
   * Attempt accounting, in every committed state of every run: the attempts of a delivery are
   * numbered exactly 1..attempt_count, one per committed batch that claimed it, and with R redrives
   * attempt_count is at most M + R, and less while an attempt is still to come. So without further
   * redrives M + R - attempt_count strictly decreases with every attempt and never goes below zero.
   */
  lemma AttemptAccounting(cfg: Settings, states: seq<Sys>, labels: seq<Label>, n: nat, d: Id)
    requires Run(cfg, states, labels) && n <= |labels|
    requires StartAccounted(cfg, states[0].table) && d in states[n].table.rows
    ensures var row, log := states[n].table.rows[d], states[n].log;
      && (forall k: nat :: k in row.attempts <==> 1 <= k <= row.attemptCount)
      && |row.attempts| == row.attemptCount
      && row.attemptCount ==
           (if d in states[0].table.rows then states[0].table.rows[d].attemptCount else 0) + Tries(log, d)
      && row.attemptCount <= cfg.maxAttempts + Redrives(log, d)
      && (row.status == Pending ==> row.attemptCount < cfg.maxAttempts + Redrives(log, d))
  {
    Serializable(cfg, states, labels, n);
    LogAccounting(cfg, states[0].table, states[n].log, d);
    var row := states[n].table.rows[d];
    AttemptsCard(row, row.attemptCount);
    assert row.attempts.Keys == set k: nat | k in row.attempts && k <= row.attemptCount;
  }

  lemma OpenRowWithinLimit(cfg: Settings, row: Delivery, d: Id, t: Tx, redrives: nat)
    requires RowInv(cfg, row, d, t) && d in t.writes && RowAccounted(row) && WithinLimit(cfg, row, redrives)
    ensures RowAccounted(t.writes[d]) && WithinLimit(cfg, t.writes[d], redrives)
  {
  }

  /** The strict bound also holds inside open transactions, for every row that is still to be attempted there. */
  lemma OpenAttemptsWithinLimit(cfg: Settings, states: seq<Sys>, labels: seq<Label>, n: nat, w: WorkerId, d: Id)
    requires Run(cfg, states, labels) && n <= |labels| && StartAccounted(cfg, states[0].table)
    requires w in states[n].txs && d in states[n].txs[w].writes
    ensures RowAccounted(states[n].txs[w].writes[d])
    ensures WithinLimit(cfg, states[n].txs[w].writes[d], Redrives(states[n].log, d))
  {
    RunKeepsInv(cfg, states, labels, n);
    LogAccounting(cfg, states[0].table, states[n].log, d);
    OpenRowWithinLimit(cfg, states[n].table.rows[d], d, states[n].txs[w], Redrives(states[n].log, d));
  }

  /** On a gapless row the next post of a transaction finds its attempt number free. */
  lemma NextPostIsFree(cfg: Settings, table: Table, t: Tx, reply: Reply)
    requires TxInv(cfg, table, t) && t.posted < |t.ids| && RowAccounted(table.rows[t.ids[t.posted]])
    requires t.claimedAt <= reply.startedAt <= reply.finishedAt
    ensures CanPost(table, t, reply)
  {
    var d := t.ids[t.posted];
    assert RowInv(cfg, table.rows[d], d, t);
    assert d !in t.replies;
  }

  /**
   * The unique constraint on (delivery, attempt number) is never violated: whenever an open
   * transaction has a delivery left to post, its next attempt number is free.
   */
  lemma PostNeverConflicts(cfg: Settings, states: seq<Sys>, labels: seq<Label>, n: nat, w: WorkerId, reply: Reply)
    requires Run(cfg, states, labels) && n <= |labels| && StartAccounted(cfg, states[0].table)
    requires w in states[n].txs && states[n].txs[w].posted < |states[n].txs[w].ids|
    requires states[n].txs[w].claimedAt <= reply.startedAt <= reply.finishedAt
    ensures Enabled(cfg, states[n], Post(w, reply))
  {
    RunKeepsInv(cfg, states, labels, n);
    var t := states[n].txs[w];
    LogAccounting(cfg, states[0].table, states[n].log, t.ids[t.posted]);
    NextPostIsFree(cfg, states[n].table, t, reply);
  }

  // ---------------------------------------------------------------------------
  // What the attempt rows say
  // ---------------------------------------------------------------------------

  /** Commit `i` is the n-th batch that claimed `d`, and the attempt row is what its post of `d` came back with. */
  predicate IsAttempt(log: seq<Commit>, i: nat, d: Id, n: nat, attempt: Attempt) {
    && i < |log| && log[i].Batched? && d in log[i].batch.ids && d in log[i].batch.replies
    && Tries(log[..i], d) + 1 == n
    && var reply := log[i].batch.replies[d];
       attempt == Attempt(reply.outcome, reply.startedAt, reply.finishedAt, log[i].batch.name)
  }

  ghost predicate IsKnown(log: seq<Commit>, d: Id, n: nat, attempt: Attempt) {
    exists i: nat :: IsAttempt(log, i, d, n, attempt)
  }

  /** Every attempt row comes from its batch, and the delivery is stamped with the worker of the last one. */
  ghost predicate FromBatches(log: seq<Commit>, d: Id, row: Delivery) {
    && row.attemptCount == Tries(log, d)
    && (forall n: nat :: n in row.attempts <==> 1 <= n <= row.attemptCount)
    && (forall n: nat :: n in row.attempts ==> IsKnown(log, d, n, row.attempts[n]))
    && (row.attemptCount >= 1 ==> row.claimedBy == Some(row.attempts[row.attemptCount].worker))
  }

  lemma KnownStill(log: seq<Commit>, c: Commit, d: Id, n: nat, attempt: Attempt)
    requires IsKnown(log, d, n, attempt)
    ensures IsKnown(log + [c], d, n, attempt)
  {
    var i: nat :| IsAttempt(log, i, d, n, attempt);
    assert (log + [c])[..i] == log[..i];
    assert IsAttempt(log + [c], i, d, n, attempt);
  }

  /** Commits that do not claim `d` leave its attempts, and who made the last of them. */
  lemma FromBatchesStill(log: seq<Commit>, c: Commit, d: Id, row: Delivery, after: Delivery)
    requires FromBatches(log, d, row) && !(c.Batched? && d in c.batch.ids)
    requires after.attempts == row.attempts && after.attemptCount == row.attemptCount
    requires after.claimedBy == row.claimedBy
    ensures FromBatches(log + [c], d, after)
  {
    assert (log + [c])[..|log|] == log;
    forall n: nat | n in after.attempts ensures IsKnown(log + [c], d, n, after.attempts[n]) {
      KnownStill(log, c, d, n, row.attempts[n]);
    }
  }

  lemma KnownNext(log: seq<Commit>, b: Batch, d: Id, attempt: Attempt)
    requires d in b.ids && d in b.replies
    requires var reply := b.replies[d]; attempt == Attempt(reply.outcome, reply.startedAt, reply.finishedAt, b.name)
    ensures IsKnown(log + [Batched(b)], d, Tries(log, d) + 1, attempt)
    ensures Tries(log + [Batched(b)], d) == Tries(log, d) + 1
  {
    assert (log + [Batched(b)])[..|log|] == log;
    assert IsAttempt(log + [Batched(b)], |log|, d, Tries(log, d) + 1, attempt);
  }

  /** The n-th attempt of the row after a batch has posted it: an old one, or the new one. */
  lemma AttemptKnown(log: seq<Commit>, b: Batch, d: Id, row: Delivery, attempt: Attempt, n: nat)
    requires FromBatches(log, d, row) && d in b.ids && d in b.replies && 1 <= n <= row.attemptCount + 1
    requires var reply := b.replies[d]; attempt == Attempt(reply.outcome, reply.startedAt, reply.finishedAt, b.name)
    ensures IsKnown(log + [Batched(b)], d, n, row.attempts[row.attemptCount + 1 := attempt][n])
  {
    if n <= row.attemptCount {
      KnownStill(log, Batched(b), d, n, row.attempts[n]);
    } else {
      KnownNext(log, b, d, attempt);
    }
  }

  lemma FromBatchesNext(log: seq<Commit>, b: Batch, d: Id, row: Delivery, after: Delivery, attempt: Attempt)
    requires FromBatches(log, d, row) && d in b.ids && d in b.replies
    requires var reply := b.replies[d]; attempt == Attempt(reply.outcome, reply.startedAt, reply.finishedAt, b.name)
    requires after.attemptCount == row.attemptCount + 1 && after.claimedBy == Some(b.name)
    requires after.attempts == row.attempts[row.attemptCount + 1 := attempt]
    ensures FromBatches(log + [Batched(b)], d, after)
  {
    KnownNext(log, b, d, attempt);
    assert forall n: nat :: n in after.attempts <==> 1 <= n <= after.attemptCount;
    forall n: nat | n in after.attempts ensures IsKnown(log + [Batched(b)], d, n, after.attempts[n]) {
      AttemptKnown(log, b, d, row, attempt, n);
    }
  }

  lemma ClaimedFromBatches(cfg: Settings, log: seq<Commit>, b: Batch, d: Id, row: Delivery)
    requires FromBatches(log, d, row) && d in b.ids && d in b.replies
    ensures FromBatches(log + [Batched(b)], d,
                        ProcessRow(cfg, AfterRecoverAndClaim(cfg, row, b), b.replies[d], b.name))
  {
    var claimed, reply := AfterRecoverAndClaim(cfg, row, b), b.replies[d];
    ProcessRowRecords(cfg, claimed, reply, b.name);
    FromBatchesNext(log, b, d, row, ProcessRow(cfg, claimed, reply, b.name),
                    Attempt(reply.outcome, reply.startedAt, reply.finishedAt, b.name));
  }

  lemma CommitFromBatches(cfg: Settings, table: Table, log: seq<Commit>, c: Commit, d: Id)
    requires Legal(cfg, table, c) && d in table.rows && FromBatches(log, d, table.rows[d])
    ensures d in ApplyCommit(cfg, table, c).rows
    ensures FromBatches(log + [c], d, ApplyCommit(cfg, table, c).rows[d])
  {
    CommitRow(cfg, table, c, d);
    var row, after := table.rows[d], ApplyCommit(cfg, table, c).rows[d];
    if c.Batched? && d in c.batch.ids {
      ClaimedFromBatches(cfg, log, c.batch, d, row);
    } else {
      FromBatchesStill(log, c, d, row, after);
    }
  }

  /** A row that a commit brings in is a freshly ingested one. */
  lemma NewRowFresh(cfg: Settings, table: Table, c: Commit, d: Id)
    requires Legal(cfg, table, c) && d !in table.rows && d in ApplyCommit(cfg, table, c).rows
    ensures FreshRow(ApplyCommit(cfg, table, c).rows[d])
    ensures (c.Redriven? ==> c.id != d) && (c.Batched? ==> d !in c.batch.ids)
  {
  }

  lemma {:induction false} LogFromBatches(cfg: Settings, init: Table, log: seq<Commit>, d: Id)
    requires LegalLog(cfg, init, log) && (d in init.rows ==> FreshRow(init.rows[d]))
    ensures d in Replay(cfg, init, log).rows ==> FromBatches(log, d, Replay(cfg, init, log).rows[d])
    ensures d !in Replay(cfg, init, log).rows ==> Tries(log, d) == 0
  {
    if log != [] {
      var before, c := log[..|log| - 1], log[|log| - 1];
      var table := Replay(cfg, init, before);
      assert log == before + [c];
      LogFromBatches(cfg, init, before, d);
      if d in table.rows {
        CommitFromBatches(cfg, table, before, c, d);
      } else if d in ApplyCommit(cfg, table, c).rows {
        NewRowFresh(cfg, table, c, d);
      }
    }
  }

  /**
   * In every run the attempt rows of a delivery are the answers that the committed batches got for it,
   * in commit order, each with the times and the worker of its own batch, and nothing else.
   */
  lemma AttemptsAreAnswers(cfg: Settings, states: seq<Sys>, labels: seq<Label>, n: nat, d: Id)
    requires Run(cfg, states, labels) && n <= |labels|
    requires d in states[0].table.rows ==> FreshRow(states[0].table.rows[d])
    ensures d in states[n].table.rows ==> FromBatches(states[n].log, d, states[n].table.rows[d])
  {
    RunKeepsInv(cfg, states, labels, n);
    LogFromBatches(cfg, states[0].table, states[n].log, d);
  }

  /** A success was answered 200 to 299; a dead letter was refused by the URL check, or failed at the limit. */
  ghost predicate Explained(cfg: Settings, row: Delivery) {
    (row.status == Succeeded || row.status == DeadLettered ==>
       && row.attemptCount in row.attempts
       && var last := row.attempts[row.attemptCount].outcome;
       && (row.status == Succeeded ==> last.Response? && 200 <= last.code <= 299)
       && (row.status == DeadLettered ==>
             || last.Blocked?
             || (row.attemptCount >= cfg.maxAttempts && (last.Response? ==> last.code < 200 || last.code > 299))))
    && (row.status == Succeeded || row.status == DeadLettered || row.status == Pending)
  }

  /** The same in both directions, and only failures were followed by another attempt. */
  ghost predicate Decided(cfg: Settings, row: Delivery) {
    if row.attemptCount == 0 then row.status == Pending
    else
      && row.attemptCount in row.attempts
      && var last := row.attempts[row.attemptCount].outcome;
      && (row.status == Succeeded <==> last.Response? && 200 <= last.code <= 299)
      && (row.status == DeadLettered <==>
            || last.Blocked?
            || (row.attemptCount >= cfg.maxAttempts && (last.Response? ==> last.code < 200 || last.code > 299)))
      && forall n: nat :: 1 <= n < row.attemptCount ==>
           && n in row.attempts
           && (row.attempts[n].outcome.Unreachable?
               || (row.attempts[n].outcome.Response?
                   && (row.attempts[n].outcome.code < 200 || row.attempts[n].outcome.code > 299)))
  }

  /** An attempt on a row that was pending when it was claimed. */
  lemma AttemptDecides(cfg: Settings, row: Delivery, claimed: Delivery, reply: Reply, worker: string, after: Delivery)
    requires row.status == Pending && RecordsReply(cfg, claimed, reply, worker, after)
    requires claimed.attempts == row.attempts && claimed.attemptCount == row.attemptCount
    ensures Explained(cfg, after) && (Decided(cfg, row) ==> Decided(cfg, after))
  {
  }

  lemma CommitDecides(cfg: Settings, table: Table, c: Commit, d: Id)
    requires Legal(cfg, table, c) && d in table.rows && Explained(cfg, table.rows[d])
    ensures d in ApplyCommit(cfg, table, c).rows
    ensures var row, after := table.rows[d], ApplyCommit(cfg, table, c).rows[d];
      Explained(cfg, after) && (Decided(cfg, row) && !(c.Redriven? && c.id == d) ==> Decided(cfg, after))
  {
    CommitRow(cfg, table, c, d);
    if c.Batched? && d in c.batch.ids {
      var row, claimed := table.rows[d], AfterRecoverAndClaim(cfg, table.rows[d], c.batch);
      ProcessRowRecords(cfg, claimed, c.batch.replies[d], c.batch.name);
      AttemptDecides(cfg, row, claimed, c.batch.replies[d], c.batch.name, ApplyCommit(cfg, table, c).rows[d]);
    }
  }

  lemma {:induction false} LogDecides(cfg: Settings, init: Table, log: seq<Commit>, d: Id)
    requires LegalLog(cfg, init, log) && (d in init.rows ==> FreshRow(init.rows[d]))
    ensures d in Replay(cfg, init, log).rows ==>
              var row := Replay(cfg, init, log).rows[d];
              Explained(cfg, row) && (Redrives(log, d) == 0 ==> Decided(cfg, row))
  {
    if log != [] {
      var before, c := log[..|log| - 1], log[|log| - 1];
      var table := Replay(cfg, init, before);
      LogDecides(cfg, init, before, d);
      if d in table.rows {
        CommitDecides(cfg, table, c, d);
      } else if d in ApplyCommit(cfg, table, c).rows {
        NewRowFresh(cfg, table, c, d);
      }
    }
  }

  /**
   * In every run a succeeded delivery was last answered 200 to 299, and a dead-lettered one was last
   * refused by the URL check or failed at attempt M or later. Without a redrive that holds in both
   * directions, so a 503, a 404 or a redirect is retried until the limit, and nothing is attempted
   * again after an answer from 200 to 299.
   */
  lemma LastAttemptDecides(cfg: Settings, states: seq<Sys>, labels: seq<Label>, n: nat, d: Id)
    requires Run(cfg, states, labels) && n <= |labels| && d in states[n].table.rows
    requires d in states[0].table.rows ==> FreshRow(states[0].table.rows[d])
    ensures Explained(cfg, states[n].table.rows[d])
    ensures Redrives(states[n].log, d) == 0 ==> Decided(cfg, states[n].table.rows[d])
  {
    RunKeepsInv(cfg, states, labels, n);
    LogDecides(cfg, states[0].table, states[n].log, d);
  }

  // ---------------------------------------------------------------------------
  // No lost work
  // ---------------------------------------------------------------------------

  /** A row at rest: waiting without a lease, or finished one way or the other. */
  predicate AtRest(row: Delivery) {
    (row.status == Pending && row.leasedUntil == None) || row.status == Succeeded || row.status == DeadLettered
  }

  ghost predicate AllAtRest(table: Table) {
    forall d :: d in table.rows ==> AtRest(table.rows[d])
  }

  lemma CommitAtRest(cfg: Settings, table: Table, c: Commit, d: Id)
    requires Legal(cfg, table, c) && d in table.rows && AtRest(table.rows[d])
    ensures d in ApplyCommit(cfg, table, c).rows
    ensures var row, after := table.rows[d], ApplyCommit(cfg, table, c).rows[d];
      AtRest(after) && after.eventId == row.eventId && after.endpointId == row.endpointId
  {
    CommitRow(cfg, table, c, d);
  }

  lemma {:induction false} LogAtRest(cfg: Settings, init: Table, log: seq<Commit>, d: Id)
    requires LegalLog(cfg, init, log) && AllAtRest(init)
    ensures var after := Replay(cfg, init, log);
      && (d in after.rows ==> AtRest(after.rows[d]))
      && (d in init.rows ==> d in after.rows && after.rows[d].eventId == init.rows[d].eventId
                             && after.rows[d].endpointId == init.rows[d].endpointId)
  {
    if log != [] {
      var before, c := log[..|log| - 1], log[|log| - 1];
      LogAtRest(cfg, init, before, d);
      if d in Replay(cfg, init, before).rows {
        CommitAtRest(cfg, Replay(cfg, init, before), c, d);
      } else if d in Replay(cfg, init, log).rows {
        NewRowFresh(cfg, Replay(cfg, init, before), c, d);
      }
    }
  }

  /**
   * No lost work: from a table without in-flight rows, no step of any run drops a delivery, changes
   * its event or endpoint, or commits a status other than pending without a lease, succeeded or
   * dead-lettered.
   */
  lemma NoLostWork(cfg: Settings, states: seq<Sys>, labels: seq<Label>, n: nat)
    requires Run(cfg, states, labels) && n <= |labels| && AllAtRest(states[0].table)
    ensures AllAtRest(states[n].table)
    ensures forall d :: d in states[0].table.rows ==>
              && d in states[n].table.rows
              && states[n].table.rows[d].eventId == states[0].table.rows[d].eventId
              && states[n].table.rows[d].endpointId == states[0].table.rows[d].endpointId
  {
    Serializable(cfg, states, labels, n);
    forall d ensures
      && (d in states[n].table.rows ==> AtRest(states[n].table.rows[d]))
      && (d in states[0].table.rows ==>
            && d in states[n].table.rows
            && states[n].table.rows[d].eventId == states[0].table.rows[d].eventId
            && states[n].table.rows[d].endpointId == states[0].table.rows[d].endpointId)
    {
      LogAtRest(cfg, states[0].table, states[n].log, d);
    }
  }

  /**
   * A leased row that was abandoned in flight is not lost either: the first tick after its lease has
   * passed sees it pending, due when it was due before, and commits it either attempted or waiting.
   */
  lemma AbandonedRowComesBack(cfg: Settings, table: Table, b: Batch, d: Id)
    requires Legal(cfg, table, Batched(b)) && d in table.rows
    requires table.rows[d].status == InFlight && table.rows[d].leasedUntil.Some?
    requires table.rows[d].leasedUntil.value < b.recoveredAt
    ensures forall now ::
            IsDue(Worker.Recover(table, b.recoveredAt).rows[d], now) <==> table.rows[d].nextAttemptAt <= now
    ensures var after := RunBatch(cfg, table, b).rows[d];
      if d in b.ids then after.attemptCount == table.rows[d].attemptCount + 1 && after.status != InFlight
      else after == table.rows[d].(status := Pending, leasedUntil := None)
  {
    CommitRow(cfg, table, Batched(b), d);
  }

  // ---------------------------------------------------------------------------
  // Succeeded is final, except for a redrive that checked too early
  // ---------------------------------------------------------------------------

  /** A redrive request has read the delivery and not written it yet. */
  predicate Held(s: Sys, d: Id) {
    exists q :: q in s.readers && s.readers[q] == d
  }

  /** No step changes a succeeded delivery, except the write of a redrive request that holds it. */
  lemma SucceededStep(cfg: Settings, states: seq<Sys>, labels: seq<Label>, n: nat, d: Id)
    requires Run(cfg, states, labels) && n < |labels|
    requires d in states[n].table.rows && states[n].table.rows[d].status == Succeeded && !Held(states[n], d)
    ensures d in states[n + 1].table.rows && states[n + 1].table.rows[d] == states[n].table.rows[d]
    ensures !Held(states[n + 1], d)
  {
    RunKeepsInv(cfg, states, labels, n);
    var s, l := states[n], labels[n];
    assert Step(cfg, s, l, states[n + 1]);
    if l.Commit? {
      assert RowInv(cfg, s.table.rows[d], d, s.txs[l.w]);
    }
  }

  lemma {:induction false} SucceededStays(cfg: Settings, states: seq<Sys>, labels: seq<Label>, k: nat, n: nat, d: Id)
    requires Run(cfg, states, labels) && k <= n <= |labels|
    requires d in states[k].table.rows && states[k].table.rows[d].status == Succeeded && !Held(states[k], d)
    ensures d in states[n].table.rows && states[n].table.rows[d] == states[k].table.rows[d] && !Held(states[n], d)
    decreases n
  {
    if k < n {
      SucceededStays(cfg, states, labels, k, n - 1, d);
      SucceededStep(cfg, states, labels, n - 1, d);
    }
  }

  /** A request that holds a succeeded delivery can write at any moment: a succeeded row is never locked. */
  lemma HolderReopens(cfg: Settings, states: seq<Sys>, labels: seq<Label>, k: nat, q: RequestId, now: Time)
    requires Run(cfg, states, labels) && k <= |labels| && q in states[k].readers
    requires states[k].readers[q] in states[k].table.rows
    requires states[k].table.rows[states[k].readers[q]].status == Succeeded
    ensures Enabled(cfg, states[k], RedriveWrite(q, now))
    ensures IsDue(Exec(cfg, states[k], RedriveWrite(q, now)).table.rows[states[k].readers[q]], now)
  {
    RunKeepsInv(cfg, states, labels, k);
    var s, d := states[k], states[k].readers[q];
    forall w | w in s.txs ensures d !in s.txs[w].writes {
      assert RowInv(cfg, s.table.rows[d], d, s.txs[w]);
    }
  }

  /** A run that has the first `k` steps of another one, and may go on differently. */
  ghost predicate Continues(cfg: Settings, states: seq<Sys>, k: nat, states': seq<Sys>, labels': seq<Label>) {
    k < |states| && k <= |labels'| && Run(cfg, states', labels') && states'[..k + 1] == states[..k + 1]
  }

  /** However the run continues, the delivery stays succeeded. */
  ghost predicate SucceededForGood(cfg: Settings, states: seq<Sys>, k: nat, d: Id) {
    forall states': seq<Sys>, labels': seq<Label>, n: nat
      | Continues(cfg, states, k, states', labels') && k <= n <= |labels'| ::
      d in states'[n].table.rows && states'[n].table.rows[d].status == Succeeded
  }

  lemma RunPrefix(cfg: Settings, states: seq<Sys>, labels: seq<Label>, k: nat)
    requires Run(cfg, states, labels) && k <= |labels|
    ensures Run(cfg, states[..k + 1], labels[..k])
  {
    forall i | 0 <= i < k ensures Step(cfg, states[..k + 1][i], labels[..k][i], states[..k + 1][i + 1]) {
      assert Step(cfg, states[i], labels[i], states[i + 1]);
    }
  }

  lemma RunSnoc(cfg: Settings, states: seq<Sys>, labels: seq<Label>, l: Label, s': Sys)
    requires Run(cfg, states, labels) && Step(cfg, states[|labels|], l, s')
    ensures Run(cfg, states + [s'], labels + [l]) && (states + [s'])[|labels| + 1] == s'
  {
    var states', labels' := states + [s'], labels + [l];
    forall i | 0 <= i < |labels'| ensures Step(cfg, states'[i], labels'[i], states'[i + 1]) {
      if i < |labels| {
        assert Step(cfg, states[i], labels[i], states[i + 1]);
      }
    }
  }

  lemma Reopened(cfg: Settings, states: seq<Sys>, labels: seq<Label>, k: nat, q: RequestId)
    returns (states': seq<Sys>, labels': seq<Label>)
    requires Run(cfg, states, labels) && k <= |labels| && q in states[k].readers
    requires states[k].readers[q] in states[k].table.rows
    requires states[k].table.rows[states[k].readers[q]].status == Succeeded
    ensures Continues(cfg, states, k, states', labels') && |labels'| == k + 1
    ensures states[k].readers[q] in states'[k + 1].table.rows
    ensures states'[k + 1].table.rows[states[k].readers[q]].status == Pending
  {
    HolderReopens(cfg, states, labels, k, q, 0.0);
    RunPrefix(cfg, states, labels, k);
    var after := Exec(cfg, states[k], RedriveWrite(q, 0.0));
    RunSnoc(cfg, states[..k + 1], labels[..k], RedriveWrite(q, 0.0), after);
    states', labels' := states[..k + 1] + [after], labels[..k] + [RedriveWrite(q, 0.0)];
    assert states'[..k + 1] == states[..k + 1];
  }

  /**
   * In every reachable state, a succeeded delivery is succeeded for good, whatever happens from there
   * on, if and only if no redrive request holds it at that moment.
   */
  lemma SucceededFinalIff(cfg: Settings, states: seq<Sys>, labels: seq<Label>, k: nat, d: Id)
    requires Run(cfg, states, labels) && k <= |labels|
    requires d in states[k].table.rows && states[k].table.rows[d].status == Succeeded
    ensures SucceededForGood(cfg, states, k, d) <==> !Held(states[k], d)
  {
    if !Held(states[k], d) {
      forall states': seq<Sys>, labels': seq<Label>, n: nat
        | Continues(cfg, states, k, states', labels') && k <= n <= |labels'|
        ensures d in states'[n].table.rows && states'[n].table.rows[d].status == Succeeded
      {
        assert states'[k] == states'[..k + 1][k] == states[..k + 1][k] == states[k];
        SucceededStays(cfg, states', labels', k, n, d);
      }
    } else {
      var q :| q in states[k].readers && states[k].readers[q] == d;
      var states', labels' := Reopened(cfg, states, labels, k, q);
      assert Continues(cfg, states, k, states', labels');
      assert states'[k + 1].table.rows[d].status == Pending;
    }
  }

  /** A request can only ever hold a delivery that was dead-lettered when it read it. */
  lemma {:induction false} ReadersReadDeadLetters(cfg: Settings, states: seq<Sys>, labels: seq<Label>, n: nat,
                                                  q: RequestId)
    requires Run(cfg, states, labels) && n <= |labels| && q in states[n].readers
    ensures exists m :: 0 <= m < n && labels[m] == RedriveRead(q, states[n].readers[q])
                        && states[n].readers[q] in states[m].table.rows
                        && states[m].table.rows[states[n].readers[q]].status == DeadLettered
  {
    if q in states[n - 1].readers && labels[n - 1] != RedriveRead(q, states[n].readers[q]) {
      ReadersReadDeadLetters(cfg, states, labels, n - 1, q);
      var m :| 0 <= m < n - 1 && labels[m] == RedriveRead(q, states[n - 1].readers[q])
               && states[n - 1].readers[q] in states[m].table.rows
               && states[m].table.rows[states[n - 1].readers[q]].status == DeadLettered;
    }
  }

  // ---------------------------------------------------------------------------
  // A run in which that happens
  // ---------------------------------------------------------------------------

  /** The transaction of a lone worker that has claimed a lone row at `now`. */
  function ClaimedTx(cfg: Settings, row: Delivery, now: Time): Tx {
    Tx("w", now, true, now, [0], 0, map[], map[0 := ClaimRow(row, now + cfg.lease, "w")])
  }

  function AttemptedRow(cfg: Settings, row: Delivery, now: Time, reply: Reply): Delivery {
    ProcessRow(cfg, ClaimRow(row, now + cfg.lease, "w"), reply, "w")
  }

  lemma ClaimedAlone(cfg: Settings, row: Delivery, now: Time, t: Tx)
    requires IsDue(row, now) && t == Tx("w", now, false, now, [], 0, map[], map[])
    ensures var table := Table(map[0 := row]);
      && View(table, t) == table && ClaimAnswer(table, now, cfg.batchSize, {}, [0])
      && ClaimTx(cfg, table, t, now, [0]) == ClaimedTx(cfg, row, now)
  {
    var table := Table(map[0 := row]);
    assert View(table, t) == table;
    assert ClaimTx(cfg, table, t, now, [0]).writes == map[0 := ClaimRow(row, now + cfg.lease, "w")];
  }

  /** A lone worker claims a lone due delivery ... */
  lemma ClaimAlone(cfg: Settings, s: Sys, row: Delivery, now: Time) returns (a: Sys, b: Sys)
    requires s.txs == map[] && s.table == Table(map[0 := row]) && IsDue(row, now)
    ensures Step(cfg, s, Label.Recover(0, "w", now), a) && Step(cfg, a, Label.Claim(0, now, [0]), b)
    ensures b == s.(txs := map[0 := ClaimedTx(cfg, row, now)])
  {
    a := Exec(cfg, s, Label.Recover(0, "w", now));
    var t := BeginTx(s.table, "w", now);
    assert t.writes == map[] && a == s.(txs := map[0 := t]) && LockedByOthers(a, 0) == {};
    ClaimedAlone(cfg, row, now, t);
    b := Exec(cfg, a, Label.Claim(0, now, [0]));
    assert b == s.(txs := map[0 := ClaimedTx(cfg, row, now)]);
  }

  /** ... and posts it and commits. */
  lemma PostAlone(cfg: Settings, s: Sys, row: Delivery, now: Time, reply: Reply) returns (a: Sys, b: Sys)
    requires s.table == Table(map[0 := row]) && s.txs == map[0 := ClaimedTx(cfg, row, now)] && !Taken(row)
    requires now <= reply.startedAt <= reply.finishedAt
    ensures Step(cfg, s, Post(0, reply), a) && Step(cfg, a, Label.Commit(0), b)
    ensures b.table == Table(map[0 := AttemptedRow(cfg, row, now, reply)])
    ensures b.txs == map[] && b.readers == s.readers
  {
    a := Exec(cfg, s, Post(0, reply));
    b := Exec(cfg, a, Label.Commit(0));
    var done := AttemptedRow(cfg, row, now, reply);
    assert View(s.table, s.txs[0]).rows[0] == ClaimRow(row, now + cfg.lease, "w");
    assert a.txs[0].writes == map[0 := done];
    assert s.table.rows + map[0 := done] == map[0 := done];
    assert b.txs == map[];
  }

  lemma FourMore(cfg: Settings, states: seq<Sys>, labels: seq<Label>, l1: Label, s1: Sys, l2: Label, s2: Sys,
                 l3: Label, s3: Sys, l4: Label, s4: Sys)
    returns (states': seq<Sys>, labels': seq<Label>)
    requires Run(cfg, states, labels) && Step(cfg, states[|labels|], l1, s1) && Step(cfg, s1, l2, s2)
    requires Step(cfg, s2, l3, s3) && Step(cfg, s3, l4, s4)
    ensures states' == states + [s1, s2, s3, s4] && labels' == labels + [l1, l2, l3, l4]
    ensures Run(cfg, states', labels')
  {
    RunSnoc(cfg, states, labels, l1, s1);
    RunSnoc(cfg, states + [s1], labels + [l1], l2, s2);
    RunSnoc(cfg, states + [s1] + [s2], labels + [l1] + [l2], l3, s3);
    RunSnoc(cfg, states + [s1] + [s2] + [s3], labels + [l1] + [l2] + [l3], l4, s4);
    states', labels' := states + [s1, s2, s3, s4], labels + [l1, l2, l3, l4];
    assert states' == states + [s1] + [s2] + [s3] + [s4] && labels' == labels + [l1] + [l2] + [l3] + [l4];
  }

  /** A whole tick of that worker. */
  lemma TickAlone(cfg: Settings, states: seq<Sys>, labels: seq<Label>, row: Delivery, now: Time, reply: Reply)
    returns (states': seq<Sys>, labels': seq<Label>)
    requires Run(cfg, states, labels) && states[|labels|].txs == map[] && states[|labels|].table == Table(map[0 := row])
    requires IsDue(row, now) && !Taken(row) && now <= reply.startedAt <= reply.finishedAt
    ensures Run(cfg, states', labels') && |labels'| == |labels| + 4 && states <= states'
    ensures states'[|labels'|].table == Table(map[0 := AttemptedRow(cfg, row, now, reply)])
    ensures states'[|labels'|].txs == map[] && states'[|labels'|].readers == states[|labels|].readers
  {
    var a, b := ClaimAlone(cfg, states[|labels|], row, now);
    var c, d := PostAlone(cfg, b, row, now, reply);
    states', labels' := FourMore(cfg, states, labels, Label.Recover(0, "w", now), a, Label.Claim(0, now, [0]), b,
                                 Post(0, reply), c, Label.Commit(0), d);
  }

  const NEW_ROW := Delivery(0, 0, Pending, 0, 0.0, None, None, map[])
  const REFUSED := Reply(Blocked, 1.0, 1.0, 0.0)
  const ACCEPTED := Reply(Response(200), 2.0, 2.0, 0.0)

  /** From an empty table: a delivery is ingested, and its first attempt is refused by the URL check. */
  lemma DeadLetterFirst(cfg: Settings) returns (states: seq<Sys>, labels: seq<Label>)
    ensures Run(cfg, states, labels) && |labels| == 5 && states[0].table == Table(map[])
    ensures states[5].txs == map[] && states[5].readers == map[]
    ensures states[5].table == Table(map[0 := AttemptedRow(cfg, NEW_ROW, 1.0, REFUSED)])
  {
    var empty := Sys(Table(map[]), map[], map[], []);
    var one := Exec(cfg, empty, Ingest(map[0 := NEW_ROW]));
    assert map[] + map[0 := NEW_ROW] == map[0 := NEW_ROW];
    RunSnoc(cfg, [empty], [], Ingest(map[0 := NEW_ROW]), one);
    states, labels := TickAlone(cfg, [empty] + [one], [] + [Ingest(map[0 := NEW_ROW])], NEW_ROW, 1.0, REFUSED);
    assert states[0] == ([empty] + [one])[0];
  }

  /** Two redrive requests read the dead-lettered delivery, then the first one writes: it is due, and still held. */
  lemma HeldAndDue(cfg: Settings) returns (states: seq<Sys>, labels: seq<Label>, row: Delivery)
    ensures Run(cfg, states, labels) && |labels| == 8 && states[0].table == Table(map[])
    ensures states[8].txs == map[] && states[8].readers == map[1 := 0] && states[8].table == Table(map[0 := row])
    ensures row == RedriveRow(AttemptedRow(cfg, NEW_ROW, 1.0, REFUSED), 2.0)
  {
    states, labels := DeadLetterFirst(cfg);
    row := RedriveRow(AttemptedRow(cfg, NEW_ROW, 1.0, REFUSED), 2.0);
    var s5 := states[5];
    var s6 := Exec(cfg, s5, RedriveRead(0, 0));
    var s7 := Exec(cfg, s6, RedriveRead(1, 0));
    var s8 := Exec(cfg, s7, RedriveWrite(0, 2.0));
    RunSnoc(cfg, states, labels, RedriveRead(0, 0), s6);
    RunSnoc(cfg, states + [s6], labels + [RedriveRead(0, 0)], RedriveRead(1, 0), s7);
    RunSnoc(cfg, states + [s6] + [s7], labels + [RedriveRead(0, 0)] + [RedriveRead(1, 0)], RedriveWrite(0, 2.0), s8);
    states := states + [s6] + [s7] + [s8];
    labels := labels + [RedriveRead(0, 0)] + [RedriveRead(1, 0)] + [RedriveWrite(0, 2.0)];
    assert s8.readers == map[1 := 0];
  }

  /**
   * From an empty table, for every configuration: a delivery is ingested and dead-lettered, two
   * redrive requests read it, the first one is written, attempted and succeeds, and the second write
   * puts the succeeded delivery back to pending. It is then due, and will be posted again.
   */
  lemma StaleRedriveReopens(cfg: Settings) returns (states: seq<Sys>, labels: seq<Label>)
    ensures Run(cfg, states, labels) && |labels| == 13 && states[0].table == Table(map[])
    ensures 0 in states[12].table.rows && states[12].table.rows[0].status == Succeeded && Held(states[12], 0)
    ensures 0 in states[13].table.rows && IsDue(states[13].table.rows[0], 3.0)
  {
    var row;
    states, labels, row := HeldAndDue(cfg);
    var start := states;
    states, labels := TickAlone(cfg, states, labels, row, 2.0, ACCEPTED);
    assert states[0] == start[0];
    var s12 := states[12];
    assert s12.readers[1] == 0;
    var s13 := Exec(cfg, s12, RedriveWrite(1, 3.0));
    RunSnoc(cfg, states, labels, RedriveWrite(1, 3.0), s13);
    states, labels := states + [s13], labels + [RedriveWrite(1, 3.0)];
  }

  // ---------------------------------------------------------------------------
  // Retry spacing
  // ---------------------------------------------------------------------------

  /** Consecutive attempts, and the attempt still to come, are at least the capped delay apart. */
  ghost predicate RetriesSpaced(cfg: Settings, row: Delivery) {
    && RowAccounted(row)
    && (forall n: nat :: 1 <= n < row.attemptCount ==>
          row.attempts[n].finishedAt + Backoff.Delay(n, cfg.base, cfg.cap) <= row.attempts[n + 1].startedAt)
    && (row.attemptCount >= 1 && (row.status == Pending || row.status == InFlight) ==>
          row.attempts[row.attemptCount].finishedAt + Backoff.Delay(row.attemptCount, cfg.base, cfg.cap)
            <= row.nextAttemptAt)
  }

  lemma NextDue(cfg: Settings, row: Delivery, reply: Reply, worker: string)
    ensures var after := ProcessRow(cfg, row, reply, worker);
      after.status == Pending ==>
        reply.finishedAt + Backoff.Delay(after.attemptCount, cfg.base, cfg.cap) <= after.nextAttemptAt
  {
  }

  lemma AttemptKeepsSpacing(cfg: Settings, row: Delivery, reply: Reply, worker: string)
    requires RetriesSpaced(cfg, row) && (row.status == Pending || row.status == InFlight)
    requires row.nextAttemptAt <= reply.startedAt
    ensures RetriesSpaced(cfg, ProcessRow(cfg, row, reply, worker))
  {
    var after := ProcessRow(cfg, row, reply, worker);
    NextDue(cfg, row, reply, worker);
    assert after.attempts[after.attemptCount].finishedAt == reply.finishedAt;
    forall n: nat | 1 <= n < after.attemptCount
      ensures after.attempts[n].finishedAt + Backoff.Delay(n, cfg.base, cfg.cap) <= after.attempts[n + 1].startedAt
    {
      assert after.attempts[n] == row.attempts[n];
      assert n < row.attemptCount ==> after.attempts[n + 1] == row.attempts[n + 1];
    }
  }

  lemma CommitSpacing(cfg: Settings, table: Table, c: Commit, d: Id)
    requires Legal(cfg, table, c) && d in table.rows && RetriesSpaced(cfg, table.rows[d]) && !(c.Redriven? && c.id == d)
    ensures d in ApplyCommit(cfg, table, c).rows && RetriesSpaced(cfg, ApplyCommit(cfg, table, c).rows[d])
  {
    CommitRow(cfg, table, c, d);
    if c.Batched? && d in c.batch.ids {
      AttemptKeepsSpacing(cfg, AfterRecoverAndClaim(cfg, table.rows[d], c.batch), c.batch.replies[d], c.batch.name);
    }
  }

  lemma {:induction false} LogSpacing(cfg: Settings, init: Table, log: seq<Commit>, d: Id)
    requires LegalLog(cfg, init, log) && Redrives(log, d) == 0
    requires d in init.rows ==> RetriesSpaced(cfg, init.rows[d])
    ensures d in Replay(cfg, init, log).rows ==> RetriesSpaced(cfg, Replay(cfg, init, log).rows[d])
  {
    if log != [] {
      var before, c := log[..|log| - 1], log[|log| - 1];
      LogSpacing(cfg, init, before, d);
      if d in Replay(cfg, init, before).rows {
        CommitSpacing(cfg, Replay(cfg, init, before), c, d);
      } else if d in Replay(cfg, init, log).rows {
        NewRowFresh(cfg, Replay(cfg, init, before), c, d);
      }
    }
  }

  /** Without a redrive, attempt n + 1 starts at least the n-th capped delay after attempt n finished, in every run. */
  lemma RetrySpacing(cfg: Settings, states: seq<Sys>, labels: seq<Label>, k: nat, d: Id, n: nat)
    requires Run(cfg, states, labels) && k <= |labels| && Redrives(states[k].log, d) == 0
    requires d in states[0].table.rows ==> RetriesSpaced(cfg, states[0].table.rows[d])
    requires d in states[k].table.rows && n >= 1 && n + 1 in states[k].table.rows[d].attempts
    ensures var attempts := states[k].table.rows[d].attempts;
      n in attempts && attempts[n].finishedAt + Backoff.Delay(n, cfg.base, cfg.cap) <= attempts[n + 1].startedAt
  {
    Serializable(cfg, states, labels, k);
    LogSpacing(cfg, states[0].table, states[k].log, d);
    assert RowAccounted(states[k].table.rows[d]);
  }
}
