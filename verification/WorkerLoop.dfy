/**
 * One worker loop (app/worker/__main__.py, `_worker_loop`): every tick runs `run_once` in a fresh
 * session and either commits the whole batch or rolls it back. What the loop commits is a log of the
 * serial system, so the guarantees about logs hold for it.
 */
module WorkerLoop {
  import opened Prelude
  import opened Worker
  import opened Queue
  import opened Fairness

  /** One tick: its clock readings, what happens to its posts, and whether it fails before its commit. */
  datatype TickInput = TickInput(recoverAt: Time, claimAt: Time, pauses: map<EndpointId, Duration>, env: seq<Env>,
                                 fails: bool)

  predicate Usable(cfg: Settings, i: TickInput, t: Time) {
    t <= i.recoverAt <= i.claimAt && |i.env| == cfg.batchSize
  }

  /** How many of the first `k` ticks commit. */
  function Committing(inputs: seq<TickInput>, k: nat): nat
    requires k <= |inputs|
  {
    if k == 0 then 0 else Committing(inputs, k - 1) + if inputs[k - 1].fails then 0 else 1
  }

  /** A batch of a lone loop that claimed at `t` or later: legal, and it passes over nothing that is due by `t`. */
  ghost predicate LoneBatch(cfg: Settings, table: Table, b: Batch, t: Time) {
    Onward(cfg, table, Batched(b), t) && forall d :: ServesFor(table, t, cfg.batchSize, b.ids, d)
  }

  ghost predicate LoneLog(cfg: Settings, init: Table, log: seq<Commit>, t: Time) {
    log == [] ||
    var before, c := log[..|log| - 1], log[|log| - 1];
    LoneLog(cfg, init, before, t) && c.Batched? && LoneBatch(cfg, Replay(cfg, init, before), c.batch, t)
  }

  lemma LoneSnoc(cfg: Settings, init: Table, log: seq<Commit>, b: Batch, t: Time)
    requires LoneLog(cfg, init, log, t) && LoneBatch(cfg, Replay(cfg, init, log), b, t)
    ensures LoneLog(cfg, init, log + [Batched(b)], t)
    ensures Replay(cfg, init, log + [Batched(b)]) == RunBatch(cfg, Replay(cfg, init, log), b)
    ensures Ticks(log + [Batched(b)]) == Ticks(log) + 1
  {
    assert (log + [Batched(b)])[..|log|] == log;
  }

  lemma {:induction false} LoneIsLegal(cfg: Settings, init: Table, log: seq<Commit>, t: Time)
    requires LoneLog(cfg, init, log, t)
    ensures LegalLog(cfg, init, log)
  {
    if log != [] {
      LoneIsLegal(cfg, init, log[..|log| - 1], t);
    }
  }

  lemma WaitingBatch(cfg: Settings, init: Table, table: Table, b: Batch, ticks: nat, t: Time, d: Id)
    requires LoneBatch(cfg, table, b, t) && d in init.rows && WaitedFor(cfg, init, table, ticks, 0, t, d)
    ensures WaitedFor(cfg, init, ApplyCommit(cfg, table, Batched(b)), ticks + 1, 0, t, d)
  {
    WaitingTick(cfg, init, table, b, ticks, 0, t, d);
  }

  /** Every batch of such a log shortens the queue before a delivery that still waits. */
  lemma {:induction false} WaitingShrinks(cfg: Settings, init: Table, log: seq<Commit>, t: Time, d: Id)
    requires LoneLog(cfg, init, log, t) && NothingInFlight(init) && d in DueBy(init, t)
    ensures WaitedFor(cfg, init, Replay(cfg, init, log), Ticks(log), 0, t, d)
  {
    if log != [] {
      var before, b := log[..|log| - 1], log[|log| - 1].batch;
      var table := Replay(cfg, init, before);
      assert Replay(cfg, init, log) == ApplyCommit(cfg, table, Batched(b)) && LoneBatch(cfg, table, b, t);
      WaitingShrinks(cfg, init, before, t, d);
      WaitingBatch(cfg, init, table, b, Ticks(before), t, d);
    }
  }

  /** Every one of these deliveries has got at least one more attempt. */
  ghost predicate Attempted(before: Table, after: Table, ids: set<Id>) {
    forall d :: d in ids && d in before.rows ==>
      d in after.rows && after.rows[d].attemptCount > before.rows[d].attemptCount
  }

  lemma AllAttempted(cfg: Settings, init: Table, log: seq<Commit>, t: Time)
    requires LoneLog(cfg, init, log, t) && NothingInFlight(init)
    ensures Ticks(log) >= Ceil(|DueBy(init, t)|, cfg.batchSize) ==>
              Attempted(init, Replay(cfg, init, log), DueBy(init, t))
  {
    if Ticks(log) >= Ceil(|DueBy(init, t)|, cfg.batchSize) {
      forall d | d in DueBy(init, t)
        ensures d in Replay(cfg, init, log).rows
        ensures Replay(cfg, init, log).rows[d].attemptCount > init.rows[d].attemptCount
      {
        WaitingShrinks(cfg, init, log, t, d);
        WaitedEnough(cfg, init, Replay(cfg, init, log), Ticks(log), 0, t, d);
      }
    }
  }

  /** After `k` ticks the table is the replay of a lone loop's log with one batch per committing tick. */
  ghost predicate Progress(cfg: Settings, init: Table, table: Table, log: seq<Commit>, inputs: seq<TickInput>, k: nat,
                           t: Time)
    requires k <= |inputs|
  {
    && Accounted(table) && NothingInFlight(table) && table == Replay(cfg, init, log)
    && LoneLog(cfg, init, log, t) && Ticks(log) == Committing(inputs, k)
  }

  lemma ProgressStep(cfg: Settings, init: Table, table: Table, log: seq<Commit>, inputs: seq<TickInput>, k: nat,
                     t: Time, after: Table, b: Batch)
    requires k < |inputs| && Progress(cfg, init, table, log, inputs, k, t) && Accounted(after)
    requires inputs[k].fails ==> after == table
    requires !inputs[k].fails ==> after == RunBatch(cfg, table, b) && LoneBatch(cfg, table, b, t)
    ensures Progress(cfg, init, after, if inputs[k].fails then log else log + [Batched(b)], inputs, k + 1, t)
  {
    if !inputs[k].fails {
      LoneSnoc(cfg, init, log, b, t);
      PastKeepsRest(cfg, table, Batched(b), t);
    }
  }

  lemma AnswerIsSound(table: Table, now: Time, limit: nat, ids: seq<Id>)
    requires ClaimAnswer(table, now, limit, {}, ids)
    ensures SoundClaim(table, now, limit, ids)
  {
    forall i | 0 <= i < |ids| ensures ids[i] in table.rows && IsDue(table.rows[ids[i]], now) {
      assert ids[i] in ids;
    }
  }

  lemma SentIsTimely(targets: seq<EndpointId>, ids: seq<Id>, pauses: map<EndpointId, Duration>, env: seq<Env>,
                     from: Time, replies: map<Id, Reply>)
    requires |ids| == |targets| && |ids| <= |env| && Sent(targets, ids, |ids|, pauses, env, from, replies)
    ensures replies.Keys == Elems(ids) && Timely(replies, from)
  {
  }

  /** What a session hands over is a legal commit. */
  lemma BatchIsLegal(cfg: Settings, table: Table, b: Batch, pauses: map<EndpointId, Duration>, env: seq<Env>)
    requires |env| == cfg.batchSize
    requires ClaimAnswer(Worker.Recover(table, b.recoveredAt), b.claimedAt, cfg.batchSize, {}, b.ids)
    requires Sent(Targets(table, b.ids), b.ids, |b.ids|, pauses, env, b.claimedAt, b.replies)
    ensures Legal(cfg, table, Batched(b))
  {
    AnswerIsSound(Worker.Recover(table, b.recoveredAt), b.claimedAt, cfg.batchSize, b.ids);
    SentIsTimely(Targets(table, b.ids), b.ids, pauses, env, b.claimedAt, b.replies);
  }

  /** With nothing in flight recovery finds nothing, so the claim is one of a lone loop. */
  lemma BatchIsLone(cfg: Settings, table: Table, b: Batch, t: Time)
    requires NothingInFlight(table) && t <= b.claimedAt && Legal(cfg, table, Batched(b))
    requires ClaimAnswer(Worker.Recover(table, b.recoveredAt), b.claimedAt, cfg.batchSize, {}, b.ids)
    ensures LoneBatch(cfg, table, b, t)
  {
    assert Worker.Recover(table, b.recoveredAt).rows == table.rows;
    forall d ensures ServesFor(table, t, cfg.batchSize, b.ids, d) {
      AnswerServes(table, b.claimedAt, cfg.batchSize, b.ids, t, d);
    }
  }

  class Loop {
    const cfg: Settings
    const name: string
    var committed: Table

    constructor (cfg: Settings, name: string, table: Table)
      ensures this.cfg == cfg && this.name == name && committed == table
    {
      this.cfg, this.name, committed := cfg, name, table;
    }

    /** One tick; `n` is the number of deliveries processed, zero when the tick was rolled back. */
    method Tick(i: TickInput, ghost t: Time) returns (n: nat, ghost batch: Batch)
      requires Usable(cfg, i, t) && Accounted(committed)
      modifies this
      ensures Accounted(committed)
      ensures i.fails ==> committed == old(committed) && n == 0
      ensures !i.fails ==> committed == RunBatch(cfg, old(committed), batch) && n == |batch.ids|
      ensures !i.fails ==> batch.recoveredAt == i.recoverAt && batch.claimedAt == i.claimAt
      ensures !i.fails ==>
                ClaimAnswer(Worker.Recover(old(committed), i.recoverAt), i.claimAt, cfg.batchSize, {}, batch.ids)
      ensures !i.fails ==> Legal(cfg, old(committed), Batched(batch))
      ensures !i.fails && NothingInFlight(old(committed)) ==> LoneBatch(cfg, old(committed), batch, t)
    {
      var session := new Session(cfg, committed);
      var ok, done, _ := session.RunOnce(i.recoverAt, i.claimAt, name, i.pauses, i.env);
      batch := done;
      BatchIsLegal(cfg, committed, batch, i.pauses, i.env);
      if NothingInFlight(committed) {
        BatchIsLone(cfg, committed, batch, t);
      }
      n := 0;
      if ok && !i.fails {
        n := |done.ids|;
        committed := session.table;
      }
    }

    /**
     * Any number of ticks. A delivery that is due when they start is attempted once ceil(r / batch_size)
     * of them have committed, r being the number of deliveries due; rolled-back ticks only cost time.
     */
    method Run(inputs: seq<TickInput>, ghost t: Time) returns (ghost log: seq<Commit>)
      requires Accounted(committed) && NothingInFlight(committed)
      requires forall k :: 0 <= k < |inputs| ==> Usable(cfg, inputs[k], t)
      modifies this
      ensures committed == Replay(cfg, old(committed), log) && LegalLog(cfg, old(committed), log)
      ensures Ticks(log) == Committing(inputs, |inputs|)
      ensures Committing(inputs, |inputs|) >= Ceil(|DueBy(old(committed), t)|, cfg.batchSize) ==>
                Attempted(old(committed), committed, DueBy(old(committed), t))
    {
      ghost var init := committed;
      log := [];
      for k := 0 to |inputs|
        invariant Progress(cfg, init, committed, log, inputs, k, t)
      {
        ghost var before := committed;
        var n;
        ghost var batch;
        n, batch := Tick(inputs[k], t);
        ProgressStep(cfg, init, before, log, inputs, k, t, committed, batch);
        log := if inputs[k].fails then log else log + [Batched(batch)];
      }
      LoneIsLegal(cfg, init, log, t);
      AllAttempted(cfg, init, log, t);
    }
  }
}
