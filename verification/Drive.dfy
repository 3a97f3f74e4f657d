/**
 * One delivery driven to its end: against a receiver that fails its first requests
 * (tools/configurable_receiver.py), with redrives, and by the showcase's fast-forward loop
 * (app/services/showcase.py).
 */
module Drive {
  import opened Prelude
  import opened Worker
  import opened Queue
  import opened Guarantees
  import Fairness

  // ---------------------------------------------------------------------------
  // The configurable receiver
  // ---------------------------------------------------------------------------

  /** The answer to request number `n`. */
  function Answer(status: int, failCount: nat, n: nat): int {
    if failCount > 0 && n <= failCount then 500 else status
  }

  datatype Receiving = Receiving(status: int, failCount: nat)

  // ---------------------------------------------------------------------------
  // Attempts until the delivery rests, then redrives
  // ---------------------------------------------------------------------------

  /** When the n-th request is sent and answered, and the jitter drawn after it. */
  datatype Timing = Timing(startedAt: Time, finishedAt: Time, draw: Draw)

  function ReplyTo(rx: Receiving, n: nat, timing: Timing): Reply {
    Reply(Response(Answer(rx.status, rx.failCount, n)), timing.startedAt, timing.finishedAt, timing.draw)
  }

  /** Claim and post the delivery; the receiver has seen `n - 1` requests before. */
  function AttemptOn(cfg: Settings, row: Delivery, rx: Receiving, n: nat, timing: Timing): Delivery {
    ProcessRow(cfg, ClaimRow(row, timing.startedAt + cfg.lease, "w"), ReplyTo(rx, n, timing), "w")
  }

  function Left(cfg: Settings, row: Delivery): nat {
    if row.status != Pending then 0
    else if row.attemptCount < cfg.maxAttempts then cfg.maxAttempts - row.attemptCount
    else 1
  }

  /** Attempts until the delivery is no longer pending; the result carries the requests seen. */
  function Settle(cfg: Settings, row: Delivery, rx: Receiving, seen: nat, timing: nat -> Timing): (Delivery, nat)
    decreases Left(cfg, row)
  {
    if row.status != Pending then (row, seen)
    else Settle(cfg, AttemptOn(cfg, row, rx, seen + 1, timing(seen + 1)), rx, seen + 1, timing)
  }

  /** As `Settle`, followed by up to `k` rounds of redrive (refused unless dead-lettered) and settling again. */
  function SettleWithRedrives(cfg: Settings, row: Delivery, rx: Receiving, timing: nat -> Timing, k: nat)
    : (Delivery, nat)
  {
    if k == 0 then Settle(cfg, row, rx, 0, timing)
    else
      var (rested, seen) := SettleWithRedrives(cfg, row, rx, timing, k - 1);
      if rested.status != DeadLettered then (rested, seen)
      else Settle(cfg, RedriveRow(rested, timing(seen).finishedAt), rx, seen, timing)
  }

  /** `redrive_delivery`, with nobody else at work: 404 without the row, 409 unless it is dead-lettered. */
  method RedriveDelivery(session: Session, id: Id, now: Time) returns (status: nat)
    modifies session
    ensures status == if id !in old(session.table).rows then 404
                      else if old(session.table).rows[id].status != DeadLettered then 409 else 200
    ensures session.table ==
            if status == 200 then Table(old(session.table).rows[id := RedriveRow(old(session.table).rows[id], now)])
                             else old(session.table)
    ensures status == 200 ==>
              session.table.rows[id] ==
              old(session.table).rows[id].(status := Pending, nextAttemptAt := now, leasedUntil := None)
  {
    if id !in session.table.rows {
      return 404;
    }
    var row := session.table.rows[id];
    if row.status != DeadLettered {
      return 409;
    }
    row := row.(status := Pending);
    row := row.(nextAttemptAt := now);
    row := row.(leasedUntil := None);
    session.table := Table(session.table.rows[id := row]);
    status := 200;
  }

  /** The delivery is the receiver's only client, and its attempts are the receiver's whole history. */
  ghost predicate Recorded(row: Delivery, rx: Receiving, seen: nat) {
    && seen == row.attemptCount
    && (forall n: nat :: n in row.attempts <==> 1 <= n <= row.attemptCount)
    && (forall n: nat :: 1 <= n <= row.attemptCount ==>
          row.attempts[n].outcome == Response(Answer(rx.status, rx.failCount, n)))
  }

  lemma {:induction false} SettleEnds(cfg: Settings, row: Delivery, rx: Receiving, seen: nat, timing: nat -> Timing)
    requires row.status == Pending && Recorded(row, rx, seen) && 200 <= rx.status < 300 && seen <= rx.failCount
    ensures var (rested, total) := Settle(cfg, row, rx, seen, timing);
      var last := if row.attemptCount < cfg.maxAttempts then cfg.maxAttempts else row.attemptCount + 1;
      && Recorded(rested, rx, total)
      && (rx.failCount < last ==> rested.status == Succeeded && total == rx.failCount + 1)
      && (rx.failCount >= last ==> rested.status == DeadLettered && total == last)
    decreases Left(cfg, row)
  {
    var next := AttemptOn(cfg, row, rx, seen + 1, timing(seen + 1));
    assert Recorded(next, rx, seen + 1);
    if next.status == Pending {
      SettleEnds(cfg, next, rx, seen + 1, timing);
    }
  }

  /**
   * Redrive arithmetic, for a fresh delivery and a receiver that fails its first F requests. When
   * F < M it succeeds at attempt F + 1 by itself. Otherwise every one of the first F - M redrives
   * ends dead-lettered one attempt later, and redrive number F - M + 1 succeeds. The attempt history
   * is complete and never reset.
   */
  lemma {:induction false} RedriveArithmetic(cfg: Settings, row: Delivery, rx: Receiving, timing: nat -> Timing, k: nat)
    requires FreshRow(row) && 200 <= rx.status < 300
    ensures var (rested, total) := SettleWithRedrives(cfg, row, rx, timing, k);
      && Recorded(rested, rx, total)
      && (rx.failCount < cfg.maxAttempts + k ==> rested.status == Succeeded && rested.attemptCount == rx.failCount + 1)
      && (rx.failCount >= cfg.maxAttempts + k ==>
            rested.status == DeadLettered && rested.attemptCount == cfg.maxAttempts + k)
  {
    if k == 0 {
      SettleEnds(cfg, row, rx, 0, timing);
    } else {
      RedriveArithmetic(cfg, row, rx, timing, k - 1);
      var (rested, seen) := SettleWithRedrives(cfg, row, rx, timing, k - 1);
      if rested.status == DeadLettered {
        SettleEnds(cfg, RedriveRow(rested, timing(seen).finishedAt), rx, seen, timing);
      }
    }
  }

  // ---------------------------------------------------------------------------
  // The same in a whole run, with every worker, redrive request and ingestion there is
  // ---------------------------------------------------------------------------

  /** Where a delivery stands after so many redrives, against a receiver that fails its first F requests. */
  ghost predicate OnSchedule(cfg: Settings, row: Delivery, rx: Receiving, redrives: nat) {
    && Recorded(row, rx, row.attemptCount)
    && match row.status
       case Pending =>
         row.attemptCount <= rx.failCount &&
         (if redrives == 0 then row.attemptCount < cfg.maxAttempts
          else row.attemptCount == cfg.maxAttempts + redrives - 1)
       case DeadLettered => row.attemptCount == cfg.maxAttempts + redrives <= rx.failCount
       case Succeeded =>
         row.attemptCount == rx.failCount + 1 &&
         redrives == if rx.failCount < cfg.maxAttempts then 0 else rx.failCount + 1 - cfg.maxAttempts
       case _ => false
  }

  lemma AttemptOnSchedule(cfg: Settings, row: Delivery, b: Batch, reply: Reply, rx: Receiving, redrives: nat)
    requires OnSchedule(cfg, row, rx, redrives) && IsDue(RecoverRow(row, b.recoveredAt), b.claimedAt)
    requires 200 <= rx.status < 300
    requires reply.outcome == Response(Answer(rx.status, rx.failCount, row.attemptCount + 1))
    ensures OnSchedule(cfg, ProcessRow(cfg, AfterRecoverAndClaim(cfg, row, b), reply, b.name), rx, redrives)
    ensures ProcessRow(cfg, AfterRecoverAndClaim(cfg, row, b), reply, b.name).attemptCount == row.attemptCount + 1
  {
  }

  lemma RedriveOnSchedule(cfg: Settings, row: Delivery, now: Time, rx: Receiving, redrives: nat)
    requires OnSchedule(cfg, row, rx, redrives) && row.status == DeadLettered
    ensures OnSchedule(cfg, RedriveRow(row, now), rx, redrives + 1)
  {
  }

  predicate Posts(s: Sys, l: Label, d: Id) {
    l.Post? && l.w in s.txs && s.txs[l.w].posted < |s.txs[l.w].ids| && s.txs[l.w].ids[s.txs[l.w].posted] == d
  }

  /** The requests that the receiver has seen for `d` after `n` steps, of committed batches or not. */
  function Requests(states: seq<Sys>, labels: seq<Label>, n: nat, d: Id): nat
    requires n <= |labels| < |states|
  {
    if n == 0 then 0
    else Requests(states, labels, n - 1, d) + if Posts(states[n - 1], labels[n - 1], d) then 1 else 0
  }

  /**
   * A post of `d` gets the receiver's next answer, no batch that has posted `d` is rolled back, and a
   * redrive still finds `d` dead-lettered when it writes.
   */
  predicate Plain(s: Sys, l: Label, d: Id, rx: Receiving, seen: nat) {
    && (Posts(s, l, d) ==> l.reply.outcome == Response(Answer(rx.status, rx.failCount, seen + 1)))
    && (l.Abort? && l.w in s.txs ==> d !in s.txs[l.w].replies)
    && (l.RedriveWrite? && l.q in s.readers && s.readers[l.q] == d ==>
          d in s.table.rows && s.table.rows[d].status == DeadLettered)
  }

  function CountOf(table: Table, d: Id): nat {
    if d in table.rows then table.rows[d].attemptCount else 0
  }

  /** The committed row of `d`, if any, is on schedule. */
  ghost predicate RowDriven(cfg: Settings, table: Table, log: seq<Commit>, d: Id, rx: Receiving) {
    if d in table.rows then OnSchedule(cfg, table.rows[d], rx, Redrives(log, d)) else Redrives(log, d) == 0
  }

  /** An open batch has posted `d`. */
  predicate InPost(txs: map<WorkerId, Tx>, d: Id) {
    exists w :: w in txs && d in txs[w].replies
  }

  ghost predicate AnswerIs(txs: map<WorkerId, Tx>, d: Id, outcome: Outcome) {
    forall w :: w in txs && d in txs[w].replies ==> txs[w].replies[d].outcome == outcome
  }

  /** An answer that is not yet committed is that to the request after the committed ones. */
  ghost predicate Driven(cfg: Settings, s: Sys, d: Id, rx: Receiving, seen: nat) {
    && RowDriven(cfg, s.table, s.log, d, rx)
    && AnswerIs(s.txs, d, Response(Answer(rx.status, rx.failCount, CountOf(s.table, d) + 1)))
    && seen == CountOf(s.table, d) + if InPost(s.txs, d) then 1 else 0
  }

  lemma RepliesAreLocked(cfg: Settings, table: Table, t: Tx, d: Id)
    requires TxInv(cfg, table, t) && d in t.replies
    ensures d in t.ids && d in t.writes && d in table.rows
  {
    assert d in First(t.ids, t.posted);
    assert RowInv(cfg, table.rows[d], d, t);
  }

  /** A row that one transaction has locked is posted by no other. */
  lemma PostedByOne(cfg: Settings, init: Table, s: Sys, w: WorkerId, d: Id)
    requires Inv(cfg, init, s) && w in s.txs && d in s.txs[w].writes
    ensures forall v :: v in s.txs && d in s.txs[v].replies ==> v == w
  {
    forall v | v in s.txs && d in s.txs[v].replies ensures v == w {
      RepliesAreLocked(cfg, s.table, s.txs[v], d);
    }
  }

  /** The posting transaction has not posted the row before, and the others cannot. */
  lemma PostIsFirst(cfg: Settings, init: Table, s: Sys, l: Label, d: Id)
    requires Inv(cfg, init, s) && Enabled(cfg, s, l) && Posts(s, l, d)
    ensures !InPost(s.txs, d)
  {
    var t := s.txs[l.w];
    PostReplies(cfg, s.table, t, l.reply);
    assert RowInv(cfg, s.table.rows[d], d, t);
    PostedByOne(cfg, init, s, l.w, d);
  }

  lemma PostedAnswer(cfg: Settings, s: Sys, l: Label, s': Sys, d: Id)
    requires Step(cfg, s, l, s') && Posts(s, l, d) && !InPost(s.txs, d)
    ensures s'.table == s.table && s'.log == s.log
    ensures InPost(s'.txs, d) && AnswerIs(s'.txs, d, l.reply.outcome)
  {
    assert s'.txs[l.w].replies == s.txs[l.w].replies[d := l.reply];
  }

  /** The posts of `d` that are under way stay as they are. */
  ghost predicate SamePosts(txs: map<WorkerId, Tx>, txs': map<WorkerId, Tx>, d: Id) {
    && (forall w :: w in txs && d in txs[w].replies ==> w in txs' && d in txs'[w].replies)
    && (forall w :: w in txs' && d in txs'[w].replies ==>
          w in txs && d in txs[w].replies && txs'[w].replies[d] == txs[w].replies[d])
  }

  lemma RestKeepsPosts(cfg: Settings, s: Sys, l: Label, s': Sys, d: Id)
    requires Step(cfg, s, l, s') && !Posts(s, l, d) && (l.Commit? || l.Abort? ==> d !in s.txs[l.w].replies)
    ensures SamePosts(s.txs, s'.txs, d)
  {
    match l
    case Recover(w, _, _) => assert d !in s'.txs[w].replies;
    case Claim(w, now, ids) => assert s'.txs[w].replies == s.txs[w].replies;
    case Post(w, _) =>
    case Commit(w) =>
    case Abort(w) =>
    case _ => assert s'.txs == s.txs;
  }

  /** The row at a commit: on schedule again, its count up by one where the batch had posted it. */
  lemma CommitDriven(cfg: Settings, table: Table, log: seq<Commit>, c: Commit, d: Id, rx: Receiving)
    requires Legal(cfg, table, c) && RowDriven(cfg, table, log, d, rx) && 200 <= rx.status < 300
    requires c.Batched? && d in c.batch.replies ==>
               c.batch.replies[d].outcome == Response(Answer(rx.status, rx.failCount, CountOf(table, d) + 1))
    requires c.Redriven? && c.id == d ==> d in table.rows && table.rows[d].status == DeadLettered
    ensures RowDriven(cfg, ApplyCommit(cfg, table, c), log + [c], d, rx)
    ensures CountOf(ApplyCommit(cfg, table, c), d) ==
            CountOf(table, d) + if c.Batched? && d in c.batch.replies then 1 else 0
  {
    assert (log + [c])[..|log|] == log;
    if d in table.rows {
      CommitRow(cfg, table, c, d);
      if c.Batched? && d in c.batch.ids {
        AttemptOnSchedule(cfg, table.rows[d], c.batch, c.batch.replies[d], rx, Redrives(log, d));
      } else if c.Redriven? && c.id == d {
        RedriveOnSchedule(cfg, table.rows[d], c.at, rx, Redrives(log, d));
      }
    } else if d in ApplyCommit(cfg, table, c).rows {
      NewRowFresh(cfg, table, c, d);
    }
  }

  lemma SamePostsAgree(txs: map<WorkerId, Tx>, txs': map<WorkerId, Tx>, d: Id, outcome: Outcome)
    requires SamePosts(txs, txs', d) && AnswerIs(txs, d, outcome)
    ensures AnswerIs(txs', d, outcome) && InPost(txs', d) == InPost(txs, d)
  {
  }

  /** A commit of a batch that has posted `d` ends the one post of `d` that there was. */
  lemma CommitEndsPost(cfg: Settings, init: Table, s: Sys, w: WorkerId, s': Sys, d: Id)
    requires Inv(cfg, init, s) && Step(cfg, s, Label.Commit(w), s') && d in s.txs[w].replies
    ensures InPost(s.txs, d) && !InPost(s'.txs, d)
  {
    RepliesAreLocked(cfg, s.table, s.txs[w], d);
    PostedByOne(cfg, init, s, w, d);
  }

  lemma CommitStepDriven(cfg: Settings, init: Table, s: Sys, l: Label, s': Sys, d: Id, rx: Receiving, seen: nat)
    requires Inv(cfg, init, s) && Step(cfg, s, l, s') && Driven(cfg, s, d, rx, seen) && Plain(s, l, d, rx, seen)
    requires Fairness.CommitOf(s, l).Some? && 200 <= rx.status < 300
    ensures Driven(cfg, s', d, rx, seen)
  {
    Fairness.StepCommits(cfg, init, s, l, s');
    CommitDriven(cfg, s.table, s.log, Fairness.CommitOf(s, l).value, d, rx);
    if l.Commit? && d in s.txs[l.w].replies {
      CommitEndsPost(cfg, init, s, l.w, s', d);
    } else {
      RestKeepsPosts(cfg, s, l, s', d);
      SamePostsAgree(s.txs, s'.txs, d, Response(Answer(rx.status, rx.failCount, CountOf(s.table, d) + 1)));
    }
  }

  lemma RestDriven(cfg: Settings, init: Table, s: Sys, l: Label, s': Sys, d: Id, rx: Receiving, seen: nat)
    requires Inv(cfg, init, s) && Step(cfg, s, l, s') && Driven(cfg, s, d, rx, seen) && Plain(s, l, d, rx, seen)
    requires Fairness.CommitOf(s, l) == None && !Posts(s, l, d)
    ensures Driven(cfg, s', d, rx, seen)
  {
    Fairness.StepCommits(cfg, init, s, l, s');
    RestKeepsPosts(cfg, s, l, s', d);
    SamePostsAgree(s.txs, s'.txs, d, Response(Answer(rx.status, rx.failCount, CountOf(s.table, d) + 1)));
  }

  lemma DrivenStep(cfg: Settings, init: Table, s: Sys, l: Label, s': Sys, d: Id, rx: Receiving, seen: nat)
    requires Inv(cfg, init, s) && Step(cfg, s, l, s') && Driven(cfg, s, d, rx, seen) && Plain(s, l, d, rx, seen)
    requires 200 <= rx.status < 300
    ensures Driven(cfg, s', d, rx, seen + if Posts(s, l, d) then 1 else 0)
  {
    if Posts(s, l, d) {
      PostIsFirst(cfg, init, s, l, d);
      PostedAnswer(cfg, s, l, s', d);
    } else if Fairness.CommitOf(s, l).Some? {
      CommitStepDriven(cfg, init, s, l, s', d, rx, seen);
    } else {
      RestDriven(cfg, init, s, l, s', d, rx, seen);
    }
  }

  /** The delivery starts fresh, or is ingested on the way, and every step up to `n` is as `Plain` says. */
  ghost predicate PlainRun(cfg: Settings, states: seq<Sys>, labels: seq<Label>, n: nat, d: Id, rx: Receiving) {
    && Run(cfg, states, labels) && n <= |labels|
    && (d in states[0].table.rows ==> FreshRow(states[0].table.rows[d]))
    && (forall i :: 0 <= i < n ==> Plain(states[i], labels[i], d, rx, Requests(states, labels, i, d)))
  }

  lemma {:induction false} RunDriven(cfg: Settings, states: seq<Sys>, labels: seq<Label>, n: nat, d: Id, rx: Receiving)
    requires PlainRun(cfg, states, labels, n, d, rx) && 200 <= rx.status < 300
    ensures Driven(cfg, states[n], d, rx, Requests(states, labels, n, d))
  {
    if n > 0 {
      RunDriven(cfg, states, labels, n - 1, d, rx);
      RunKeepsInv(cfg, states, labels, n - 1);
      DrivenStep(cfg, states[0].table, states[n - 1], labels[n - 1], states[n], d, rx,
                 Requests(states, labels, n - 1, d));
    }
  }

  /**
   * Redrive arithmetic over whole runs: any number of workers, redrive requests and ingestions, with
   * crashes wherever `d` has not been posted. After R committed redrives, a dead-lettered delivery has
   * M + R attempts, R <= F - M; a pending one that was redriven is one attempt short of that; and a
   * succeeded one has F + 1 attempts, and was redriven max(0, F + 1 - M) times: never when F < M. The
   * receiver has seen each committed attempt, and at most one request more.
   */
  lemma RedriveArithmeticInRuns(cfg: Settings, states: seq<Sys>, labels: seq<Label>, n: nat, d: Id, rx: Receiving)
    requires PlainRun(cfg, states, labels, n, d, rx) && 200 <= rx.status < 300 && d in states[n].table.rows
    ensures OnSchedule(cfg, states[n].table.rows[d], rx, Redrives(states[n].log, d))
    ensures states[n].table.rows[d].attemptCount <= Requests(states, labels, n, d)
              <= states[n].table.rows[d].attemptCount + 1
  {
    RunDriven(cfg, states, labels, n, d, rx);
  }

  // ---------------------------------------------------------------------------
  // The fast-forward loop
  // ---------------------------------------------------------------------------

  /** The row after at most |replies| back-to-back attempts, stopping only at dead-lettered. */
  function Forwarded(cfg: Settings, row: Delivery, replies: seq<Reply>, worker: string): Delivery
    decreases |replies|
  {
    if replies == [] || row.status == DeadLettered then row
    else Forwarded(cfg, ProcessRow(cfg, row, replies[0], worker), replies[1..], worker)
  }

  /** `_fast_forward_to_dead_letter`, from the locked row on: true when it reports a dead-lettered delivery. */
  method FastForward(session: Session, id: Id, replies: seq<Reply>, worker: string) returns (dead: bool)
    requires id in session.table.rows && RowAccounted(session.table.rows[id])
    requires |replies| == session.cfg.maxAttempts
    modifies session
    ensures session.table ==
            Table(old(session.table).rows[id := Forwarded(session.cfg, old(session.table).rows[id], replies, worker)])
    ensures dead == (session.table.rows[id].status == DeadLettered)
  {
    ghost var before := session.table;
    var k := 0;
    assert before == Table(before.rows[id := before.rows[id]]);
    while k < |replies| && session.table.rows[id].status != DeadLettered
      invariant 0 <= k <= |replies|
      invariant id in session.table.rows && RowAccounted(session.table.rows[id])
      invariant session.table == Table(before.rows[id := session.table.rows[id]])
      invariant Forwarded(session.cfg, session.table.rows[id], replies[k..], worker) ==
                Forwarded(session.cfg, before.rows[id], replies, worker)
    {
      var ok := session.ProcessDelivery(id, replies[k], worker);
      assert replies[k..][1..] == replies[k + 1..];
      k := k + 1;
    }
    dead := session.table.rows[id].status == DeadLettered;
  }

  predicate AllRefused(replies: seq<Reply>) {
    forall i :: 0 <= i < |replies| ==> !replies[i].outcome.Blocked? && !Accepted(replies[i].outcome)
  }

  predicate AllAccepted(replies: seq<Reply>) {
    forall i :: 0 <= i < |replies| ==> Accepted(replies[i].outcome)
  }

  /**
   * If every post fails, the loop ends dead-lettered from any attempt count a and any other status,
   * after exactly max(1, M - a) attempts.
   */
  lemma {:induction false} FastForwardDeadLetters(cfg: Settings, row: Delivery, replies: seq<Reply>, worker: string)
    requires row.status != DeadLettered && AllRefused(replies)
    requires |replies| >= 1 && row.attemptCount + |replies| >= cfg.maxAttempts
    ensures Forwarded(cfg, row, replies, worker).status == DeadLettered
    ensures Forwarded(cfg, row, replies, worker).attemptCount ==
            if row.attemptCount < cfg.maxAttempts then cfg.maxAttempts else row.attemptCount + 1
    decreases |replies|
  {
    var next := ProcessRow(cfg, row, replies[0], worker);
    if next.status != DeadLettered {
      FastForwardDeadLetters(cfg, next, replies[1..], worker);
    }
  }

  /**
   * The loop does not stop at success: against a receiver that accepts everything it posts the same
   * delivery M times, ends succeeded, and reports nothing.
   */
  lemma {:induction false} FastForwardRepeatsSuccess(cfg: Settings, row: Delivery, replies: seq<Reply>, worker: string)
    requires row.status != DeadLettered && AllAccepted(replies)
    ensures Forwarded(cfg, row, replies, worker).attemptCount == row.attemptCount + |replies|
    ensures replies != [] ==> Forwarded(cfg, row, replies, worker).status == Succeeded
    decreases |replies|
  {
    if replies != [] {
      FastForwardRepeatsSuccess(cfg, ProcessRow(cfg, row, replies[0], worker), replies[1..], worker);
    }
  }
}
