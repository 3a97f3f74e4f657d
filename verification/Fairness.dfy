/**
 * No starvation, with a bound: one worker loop, redrives and ingestions at any moment, also while a
 * tick is under way, and whatever their clocks say. Rows that are committed late, due no later than
 * the moment in question, lengthen the queue by one each; otherwise the bound fails only for a delivery
 * that a redrive request already holds.
 */
module Fairness {
  import opened Prelude
  import opened Worker
  import opened Queue
  import opened Guarantees

  /** The rows already waiting for an attempt at time `t`. */
  function DueBy(table: Table, t: Time): set<Id> {
    set d | d in table.rows && IsDue(table.rows[d], t)
  }

  /** `d` is not passed over for rows due after `t`: a batch that leaves it out is full of rows due by `t`. */
  ghost predicate ServesFor(table: Table, t: Time, limit: nat, ids: seq<Id>, d: Id) {
    d in DueBy(table, t) && d !in ids ==> |ids| == limit && Elems(ids) <= DueBy(table, t)
  }

  /** The rows that a commit adds to those due by `t`: an attempt never does, a clock read early may. */
  function Arrivals(c: Commit, t: Time): set<Id> {
    match c
    case Batched(_) => {}
    case Redriven(d, now) => if now <= t then {d} else {}
    case Ingested(rows) => set d | d in rows && rows[d].nextAttemptAt <= t
  }

  /** How many such rows the log has from position `from` on. */
  function LateSince(log: seq<Commit>, from: nat, t: Time): nat {
    if |log| <= from then 0
    else LateSince(log[..|log| - 1], from, t) + |Arrivals(log[|log| - 1], t)|
  }

  function Ticks(log: seq<Commit>): nat {
    if log == [] then 0 else Ticks(log[..|log| - 1]) + if log[|log| - 1].Batched? then 1 else 0
  }

  lemma LogSnoc(log: seq<Commit>, c: Commit, from: nat, t: Time)
    requires from <= |log|
    ensures Ticks(log + [c]) == Ticks(log) + (if c.Batched? then 1 else 0)
    ensures LateSince(log + [c], from, t) == LateSince(log, from, t) + |Arrivals(c, t)|
  {
    assert (log + [c])[..|log|] == log;
  }

  ghost predicate NothingInFlight(table: Table) {
    forall d :: d in table.rows ==> table.rows[d].status != InFlight
  }

  /** A legal commit; a batch was claimed at `t` or later. */
  ghost predicate Onward(cfg: Settings, table: Table, c: Commit, t: Time) {
    Legal(cfg, table, c) && (c.Batched? ==> t <= c.batch.claimedAt)
  }

  /** What a commit does to one row: only an arrival becomes due by `t` that was not. */
  lemma RowPast(cfg: Settings, table: Table, c: Commit, t: Time, d: Id)
    requires Onward(cfg, table, c, t) && NothingInFlight(table) && d in ApplyCommit(cfg, table, c).rows
    ensures var after := ApplyCommit(cfg, table, c).rows[d];
      && after.status != InFlight
      && (IsDue(after, t) && d !in Arrivals(c, t) ==>
            d in table.rows && after == table.rows[d] && !(c.Batched? && d in c.batch.ids))
  {
    if d in table.rows {
      CommitRow(cfg, table, c, d);
    } else {
      NewRowFresh(cfg, table, c, d);
    }
  }

  lemma PastKeepsRest(cfg: Settings, table: Table, c: Commit, t: Time)
    requires Onward(cfg, table, c, t) && NothingInFlight(table)
    ensures NothingInFlight(ApplyCommit(cfg, table, c))
    ensures DueBy(ApplyCommit(cfg, table, c), t) <=
            DueBy(table, t) - (if c.Batched? then Elems(c.batch.ids) else {}) + Arrivals(c, t)
  {
    forall d | d in ApplyCommit(cfg, table, c).rows
      ensures ApplyCommit(cfg, table, c).rows[d].status != InFlight
      ensures d in DueBy(ApplyCommit(cfg, table, c), t) && d !in Arrivals(c, t) ==>
                d in DueBy(table, t) && !(c.Batched? && d in Elems(c.batch.ids))
    {
      RowPast(cfg, table, c, t, d);
    }
  }

  /** A tick that leaves `d` out takes a full batch of rows due by `t` out of the queue. */
  lemma TickHelps(cfg: Settings, table: Table, b: Batch, t: Time, d: Id)
    requires Onward(cfg, table, Batched(b), t) && NothingInFlight(table)
    requires d in DueBy(table, t) && d !in b.ids && ServesFor(table, t, cfg.batchSize, b.ids, d)
    ensures |DueBy(RunBatch(cfg, table, b), t)| + cfg.batchSize <= |DueBy(table, t)|
  {
    DistinctCard(b.ids, |b.ids|);
    PastKeepsRest(cfg, table, Batched(b), t);
    var after := DueBy(RunBatch(cfg, table, b), t);
    assert after !! Elems(b.ids) && after + Elems(b.ids) <= DueBy(table, t);
    SubsetCard(after + Elems(b.ids), DueBy(table, t));
  }

  /** A redrive of another row, or an ingestion, lengthens the queue by its arrivals at most. */
  lemma OthersKeepDue(cfg: Settings, table: Table, c: Commit, t: Time, d: Id)
    requires Onward(cfg, table, c, t) && NothingInFlight(table) && d in DueBy(table, t)
    requires !c.Batched? && !(c.Redriven? && c.id == d)
    ensures d in ApplyCommit(cfg, table, c).rows && ApplyCommit(cfg, table, c).rows[d] == table.rows[d]
    ensures |DueBy(ApplyCommit(cfg, table, c), t)| <= |DueBy(table, t)| + |Arrivals(c, t)|
  {
    CommitRow(cfg, table, c, d);
    PastKeepsRest(cfg, table, c, t);
    SubsetCard(DueBy(ApplyCommit(cfg, table, c), t), DueBy(table, t) + Arrivals(c, t));
    UnionCard(DueBy(table, t), Arrivals(c, t));
  }

  predicate Unattempted(init: Table, now: Table, d: Id)
    requires d in init.rows && d in now.rows
  {
    now.rows[d].attemptCount == init.rows[d].attemptCount
  }

  /**
   * Delivery `d` has been attempted, or it waits and every tick has taken a full batch out of the queue
   * before it, `late` rows having joined.
   */
  ghost predicate WaitedFor(cfg: Settings, init: Table, now: Table, ticks: nat, late: nat, t: Time, d: Id)
    requires d in init.rows
  {
    && NothingInFlight(now) && d in now.rows && init.rows[d].attemptCount <= now.rows[d].attemptCount
    && (Unattempted(init, now, d) ==>
          d in DueBy(now, t) && |DueBy(now, t)| + ticks * cfg.batchSize <= |DueBy(init, t)| + late)
  }

  lemma CountDown(after: nat, now: nat, k: nat, size: nat, start: nat)
    requires after + size <= now && now + k * size <= start
    ensures after + (k + 1) * size <= start
  {
    assert (k + 1) * size == k * size + size;
  }

  /** What a tick does to one row of a table with nothing in flight: one attempt more, or nothing. */
  lemma TickRow(cfg: Settings, table: Table, b: Batch, t: Time, d: Id)
    requires Onward(cfg, table, Batched(b), t) && NothingInFlight(table) && d in table.rows
    ensures d in RunBatch(cfg, table, b).rows
    ensures d in b.ids ==> RunBatch(cfg, table, b).rows[d].attemptCount == table.rows[d].attemptCount + 1
    ensures d !in b.ids ==> RunBatch(cfg, table, b).rows[d] == table.rows[d]
  {
    CommitRow(cfg, table, Batched(b), d);
  }

  lemma WaitingTick(cfg: Settings, init: Table, table: Table, b: Batch, ticks: nat, late: nat, t: Time, d: Id)
    requires d in init.rows && WaitedFor(cfg, init, table, ticks, late, t, d) && Onward(cfg, table, Batched(b), t)
    requires Unattempted(init, table, d) ==> ServesFor(table, t, cfg.batchSize, b.ids, d)
    ensures WaitedFor(cfg, init, RunBatch(cfg, table, b), ticks + 1, late, t, d)
  {
    PastKeepsRest(cfg, table, Batched(b), t);
    TickRow(cfg, table, b, t, d);
    if Unattempted(init, table, d) && d !in b.ids {
      TickHelps(cfg, table, b, t, d);
      CountDown(|DueBy(RunBatch(cfg, table, b), t)|, |DueBy(table, t)|, ticks, cfg.batchSize, |DueBy(init, t)| + late);
    }
  }

  lemma WaitingOthers(cfg: Settings, init: Table, table: Table, c: Commit, ticks: nat, late: nat, t: Time, d: Id)
    requires d in init.rows && WaitedFor(cfg, init, table, ticks, late, t, d) && Onward(cfg, table, c, t)
    requires !c.Batched? && (Unattempted(init, table, d) ==> !(c.Redriven? && c.id == d))
    ensures WaitedFor(cfg, init, ApplyCommit(cfg, table, c), ticks, late + |Arrivals(c, t)|, t, d)
  {
    PastKeepsRest(cfg, table, c, t);
    CommitRow(cfg, table, c, d);
    if Unattempted(init, table, d) {
      OthersKeepDue(cfg, table, c, t, d);
    }
  }

  /** ceil(r / size) */
  function Ceil(r: nat, size: nat): nat
    requires size >= 1
  {
    (r + size - 1) / size
  }

  lemma CeilTimes(r: nat, size: nat, k: nat)
    requires size >= 1 && k >= Ceil(r, size)
    ensures k * size >= r
  {
    var c := Ceil(r, size);
    assert r + size - 1 == c * size + (r + size - 1) % size;
    assert k * size >= c * size;
  }

  /** What has waited for enough ticks has been attempted. */
  lemma WaitedEnough(cfg: Settings, init: Table, now: Table, ticks: nat, late: nat, t: Time, d: Id)
    requires d in DueBy(init, t) && WaitedFor(cfg, init, now, ticks, late, t, d)
    requires ticks >= Ceil(|DueBy(init, t)| + late, cfg.batchSize)
    ensures now.rows[d].attemptCount > init.rows[d].attemptCount
  {
    CeilTimes(|DueBy(init, t)| + late, cfg.batchSize, ticks);
    assert d in DueBy(now, t) ==> |DueBy(now, t)| > 0;
  }

  // ---------------------------------------------------------------------------
  // Runs with one worker loop
  // ---------------------------------------------------------------------------

  /** Only worker `w` ticks, and it claims no earlier than `t`. Nothing is asked of the other steps. */
  predicate LoneLabel(l: Label, w: WorkerId, t: Time) {
    match l
    case Recover(v, _, _) => v == w
    case Claim(_, now, _) => t <= now
    case _ => true
  }

  predicate LoneRun(labels: seq<Label>, k: nat, n: nat, w: WorkerId, t: Time)
    requires n <= |labels|
  {
    forall i :: k <= i < n ==> LoneLabel(labels[i], w, t)
  }

  /** No row is in flight in the committed table, and there is at most the tick of the one loop. */
  ghost predicate LoneState(s: Sys, w: WorkerId, t: Time) {
    NothingInFlight(s.table) && s.txs.Keys <= {w} && (w in s.txs && s.txs[w].claimed ==> t <= s.txs[w].claimedAt)
  }

  /** What a step commits, if anything. */
  function CommitOf(s: Sys, l: Label): Option<Commit> {
    match l
    case Commit(w) => if w in s.txs then Some(Batched(BatchOf(s.txs[w]))) else None
    case RedriveWrite(q, now) => if q in s.readers then Some(Redriven(s.readers[q], now)) else None
    case Ingest(rows) => Some(Ingested(rows))
    case _ => None
  }

  lemma StepCommits(cfg: Settings, init: Table, s: Sys, l: Label, s': Sys)
    requires Inv(cfg, init, s) && Step(cfg, s, l, s')
    ensures CommitOf(s, l) == None ==> s'.table == s.table && s'.log == s.log
    ensures CommitOf(s, l).Some? ==>
              var c := CommitOf(s, l).value;
              s'.log == s.log + [c] && s'.table == ApplyCommit(cfg, s.table, c) && Legal(cfg, s.table, c)
  {
    StepKeepsInv(cfg, init, s, l, s');
    if CommitOf(s, l).Some? {
      ReplaySnoc(cfg, init, s.log, CommitOf(s, l).value);
    }
  }

  lemma LoneStep(cfg: Settings, init: Table, s: Sys, l: Label, s': Sys, w: WorkerId, t: Time)
    requires Inv(cfg, init, s) && Step(cfg, s, l, s') && LoneState(s, w, t) && LoneLabel(l, w, t)
    ensures LoneState(s', w, t)
    ensures match CommitOf(s, l)
            case None => s'.table == s.table && s'.log == s.log
            case Some(c) =>
              s'.table == ApplyCommit(cfg, s.table, c) && s'.log == s.log + [c] && Onward(cfg, s.table, c, t)
  {
    StepCommits(cfg, init, s, l, s');
    if CommitOf(s, l).Some? {
      PastKeepsRest(cfg, s.table, CommitOf(s, l).value, t);
    }
  }

  lemma {:induction false} LoneStates(cfg: Settings, states: seq<Sys>, labels: seq<Label>, k: nat, m: nat,
                                      w: WorkerId, t: Time)
    requires Run(cfg, states, labels) && k <= m <= |labels| && LoneRun(labels, k, m, w, t)
    requires states[k].txs == map[] && NothingInFlight(states[k].table)
    ensures LoneState(states[m], w, t) && states[k].log <= states[m].log
    decreases m
  {
    if k < m {
      LoneStates(cfg, states, labels, k, m - 1, w, t);
      RunKeepsInv(cfg, states, labels, m - 1);
      LoneStep(cfg, states[0].table, states[m - 1], labels[m - 1], states[m], w, t);
    }
  }

  // --- while a delivery waits, an open tick does not pass it over ---

  lemma AnswerServes(table: Table, now: Time, limit: nat, ids: seq<Id>, t: Time, d: Id)
    requires ClaimAnswer(table, now, limit, {}, ids) && t <= now
    ensures ServesFor(table, t, limit, ids, d)
  {
    if d in DueBy(table, t) && d !in ids {
      assert IsDue(table.rows[d], now);
      forall e | e in Elems(ids) ensures e in DueBy(table, t) {
        var i :| 0 <= i < |ids| && ids[i] == e;
        assert ids[i] in ids;
      }
    }
  }

  /** Before its claim a transaction of the lone loop has nothing of its own, so it claims from the committed table. */
  lemma ClaimServes(cfg: Settings, table: Table, x: Tx, now: Time, ids: seq<Id>, t: Time, d: Id)
    requires TxInv(cfg, table, x) && !x.claimed && NothingInFlight(table) && t <= now
    requires ClaimAnswer(View(table, x), now, cfg.batchSize, {}, ids)
    ensures ServesFor(table, t, cfg.batchSize, ids, d)
  {
    forall e | e in table.rows ensures e !in x.writes {
      assert RowInv(cfg, table.rows[e], e, x);
    }
    assert View(table, x).rows == table.rows;
    AnswerServes(table, now, cfg.batchSize, ids, t, d);
  }

  /** Commits that leave the claimed rows alone do not disturb that, not even late arrivals. */
  lemma ServesForFrame(table: Table, after: Table, t: Time, limit: nat, ids: seq<Id>, d: Id)
    requires ServesFor(table, t, limit, ids, d) && d in DueBy(table, t)
    requires forall e :: e in ids ==> e in table.rows && e in after.rows && after.rows[e] == table.rows[e]
    ensures ServesFor(after, t, limit, ids, d)
  {
    if d in DueBy(after, t) && d !in ids {
      forall e | e in Elems(ids) ensures e in DueBy(after, t) {
        assert e in DueBy(table, t) && e in ids;
      }
    }
  }

  ghost predicate Serving(cfg: Settings, s: Sys, w: WorkerId, t: Time, d: Id) {
    w in s.txs && s.txs[w].claimed ==> ServesFor(s.table, t, cfg.batchSize, s.txs[w].ids, d)
  }

  lemma IdsAreLocked(cfg: Settings, table: Table, x: Tx, d: Id)
    requires TxInv(cfg, table, x) && d in x.ids
    ensures d in table.rows && d in x.writes
  {
    assert RowInv(cfg, table.rows[d], d, x);
  }

  lemma OthersKeepServing(cfg: Settings, init: Table, s: Sys, l: Label, s': Sys, w: WorkerId, t: Time, d: Id)
    requires Inv(cfg, init, s) && Step(cfg, s, l, s') && (l.RedriveWrite? || l.Ingest?)
    requires Serving(cfg, s, w, t, d) && d in DueBy(s.table, t)
    ensures Serving(cfg, s', w, t, d)
  {
    if w in s.txs && s.txs[w].claimed {
      forall e | e in s.txs[w].ids
        ensures e in s.table.rows && e in s'.table.rows && s'.table.rows[e] == s.table.rows[e]
      {
        IdsAreLocked(cfg, s.table, s.txs[w], e);
        assert l.RedriveWrite? ==> !Locked(s, s.readers[l.q]);
      }
      ServesForFrame(s.table, s'.table, t, cfg.batchSize, s.txs[w].ids, d);
    }
  }

  lemma ClaimKeepsServing(cfg: Settings, init: Table, s: Sys, l: Label, s': Sys, w: WorkerId, t: Time, d: Id)
    requires Inv(cfg, init, s) && Step(cfg, s, l, s') && LoneState(s, w, t) && LoneLabel(l, w, t) && l.Claim?
    ensures Serving(cfg, s', w, t, d)
  {
    assert l.w == w && LockedByOthers(s, w) == {};
    ClaimServes(cfg, s.table, s.txs[w], l.now, l.ids, t, d);
  }

  /** While `d` waits, every step keeps an open tick serving it before rows due after `t`. */
  lemma KeepsServing(cfg: Settings, init: Table, s: Sys, l: Label, s': Sys, w: WorkerId, t: Time, d: Id)
    requires Inv(cfg, init, s) && Step(cfg, s, l, s') && LoneState(s, w, t) && LoneLabel(l, w, t)
    requires Serving(cfg, s, w, t, d) && d in DueBy(s.table, t)
    ensures Serving(cfg, s', w, t, d)
  {
    if l.RedriveWrite? || l.Ingest? {
      OthersKeepServing(cfg, init, s, l, s', w, t, d);
    } else if l.Claim? {
      ClaimKeepsServing(cfg, init, s, l, s', w, t, d);
    }
  }

  /** A waiting delivery is pending, so no redrive request comes to hold it. */
  lemma WaitingIsNotRead(cfg: Settings, s: Sys, l: Label, s': Sys, t: Time, d: Id)
    requires Step(cfg, s, l, s') && d in DueBy(s.table, t) && !Held(s, d)
    ensures !Held(s', d) && (l.RedriveWrite? ==> s.readers[l.q] != d)
  {
  }

  /** The state of a delivery's waiting: as `WaitedFor`, and until it is attempted nobody holds it or passes it over. */
  ghost predicate Waits(cfg: Settings, start: Table, s: Sys, ticks: nat, late: nat, w: WorkerId, t: Time, d: Id)
    requires d in start.rows
  {
    && WaitedFor(cfg, start, s.table, ticks, late, t, d)
    && (Unattempted(start, s.table, d) ==> !Held(s, d) && Serving(cfg, s, w, t, d))
  }

  /** Attempt counts never go down, so what is unattempted now was unattempted before. */
  lemma AttemptsStay(cfg: Settings, start: Table, table: Table, c: Commit, d: Id)
    requires Legal(cfg, table, c) && d in start.rows && d in table.rows
    requires start.rows[d].attemptCount <= table.rows[d].attemptCount
    ensures d in ApplyCommit(cfg, table, c).rows
    ensures Unattempted(start, ApplyCommit(cfg, table, c), d) ==> Unattempted(start, table, d)
  {
    CommitRow(cfg, table, c, d);
  }

  /** A commit moves the count along; what the step keeps of a waiting delivery is handed in. */
  lemma WaitsOn(cfg: Settings, start: Table, s: Sys, c: Commit, s': Sys, ticks: nat, late: nat, w: WorkerId, t: Time,
                d: Id)
    requires d in start.rows && Waits(cfg, start, s, ticks, late, w, t, d)
    requires Onward(cfg, s.table, c, t) && s'.table == ApplyCommit(cfg, s.table, c)
    requires Unattempted(start, s.table, d) && c.Batched? ==> ServesFor(s.table, t, cfg.batchSize, c.batch.ids, d)
    requires Unattempted(start, s.table, d) ==>
               !(c.Redriven? && c.id == d) && !Held(s', d) && Serving(cfg, s', w, t, d)
    ensures Waits(cfg, start, s', ticks + (if c.Batched? then 1 else 0), late + |Arrivals(c, t)|, w, t, d)
  {
    if c.Batched? {
      WaitingTick(cfg, start, s.table, c.batch, ticks, late, t, d);
    } else {
      WaitingOthers(cfg, start, s.table, c, ticks, late, t, d);
    }
    AttemptsStay(cfg, start, s.table, c, d);
  }

  lemma StillWaits(cfg: Settings, init: Table, s: Sys, l: Label, s': Sys, w: WorkerId, t: Time, d: Id)
    requires Inv(cfg, init, s) && Step(cfg, s, l, s') && LoneState(s, w, t) && LoneLabel(l, w, t)
    requires d in DueBy(s.table, t) && !Held(s, d) && Serving(cfg, s, w, t, d)
    ensures !Held(s', d) && Serving(cfg, s', w, t, d)
    ensures match CommitOf(s, l)
            case Some(Batched(b)) => ServesFor(s.table, t, cfg.batchSize, b.ids, d)
            case Some(Redriven(e, _)) => e != d
            case _ => true
  {
    KeepsServing(cfg, init, s, l, s', w, t, d);
    WaitingIsNotRead(cfg, s, l, s', t, d);
  }

  lemma WaitingMoves(cfg: Settings, start: Table, init: Table, s: Sys, l: Label, s': Sys, ticks: nat, late: nat,
                     w: WorkerId, t: Time, d: Id)
    returns (ticks': nat, late': nat)
    requires Inv(cfg, init, s) && Step(cfg, s, l, s') && LoneState(s, w, t) && LoneLabel(l, w, t)
    requires d in start.rows && Waits(cfg, start, s, ticks, late, w, t, d)
    ensures Waits(cfg, start, s', ticks', late', w, t, d)
    ensures CommitOf(s, l) == None ==> s'.log == s.log && ticks' == ticks && late' == late
    ensures CommitOf(s, l).Some? ==>
              var c := CommitOf(s, l).value;
              s'.log == s.log + [c] && ticks' == ticks + (if c.Batched? then 1 else 0)
              && late' == late + |Arrivals(c, t)|
  {
    LoneStep(cfg, init, s, l, s', w, t);
    ticks', late' := ticks, late;
    if Unattempted(start, s.table, d) {
      StillWaits(cfg, init, s, l, s', w, t, d);
    }
    if CommitOf(s, l).Some? {
      var c := CommitOf(s, l).value;
      ticks', late' := ticks + (if c.Batched? then 1 else 0), late + |Arrivals(c, t)|;
      WaitsOn(cfg, start, s, c, s', ticks, late, w, t, d);
    }
  }

  lemma {:induction false} Waiting(cfg: Settings, states: seq<Sys>, labels: seq<Label>, k: nat, m: nat, w: WorkerId,
                                   t: Time, d: Id)
    returns (ticks: nat, late: nat)
    requires Run(cfg, states, labels) && k <= m <= |labels| && LoneRun(labels, k, m, w, t)
    requires states[k].txs == map[] && NothingInFlight(states[k].table)
    requires d in DueBy(states[k].table, t) && !Held(states[k], d)
    ensures Waits(cfg, states[k].table, states[m], ticks, late, w, t, d)
    ensures Ticks(states[m].log) == Ticks(states[k].log) + ticks
    ensures LateSince(states[m].log, |states[k].log|, t) == late
    decreases m
  {
    if k < m {
      var before, lateBefore := Waiting(cfg, states, labels, k, m - 1, w, t, d);
      LoneStates(cfg, states, labels, k, m - 1, w, t);
      RunKeepsInv(cfg, states, labels, m - 1);
      var s, l := states[m - 1], labels[m - 1];
      ticks, late := WaitingMoves(cfg, states[k].table, states[0].table, s, l, states[m], before, lateBefore, w, t, d);
      if CommitOf(s, l).Some? {
        LogSnoc(s.log, CommitOf(s, l).value, |states[k].log|, t);
      }
    } else {
      ticks, late := 0, 0;
    }
  }

  /**
   * No starvation, in every run, from any state between two ticks of the one loop: a delivery pending
   * and due at `t`, with r deliveries due at or before `t` (itself included), has been attempted once
   * the loop has committed ceil((r + a) / batch_size) more ticks, where a counts the rows that others
   * have committed meanwhile with a due time of `t` or before, provided no redrive request holds the
   * delivery at the start.
   */
  lemma NoStarvation(cfg: Settings, states: seq<Sys>, labels: seq<Label>, k: nat, n: nat, w: WorkerId, t: Time, d: Id)
    requires Run(cfg, states, labels) && k <= n <= |labels| && LoneRun(labels, k, n, w, t)
    requires states[k].txs == map[] && NothingInFlight(states[k].table)
    requires d in DueBy(states[k].table, t) && !Held(states[k], d)
    requires Ticks(states[n].log) >= Ticks(states[k].log)
               + Ceil(|DueBy(states[k].table, t)| + LateSince(states[n].log, |states[k].log|, t), cfg.batchSize)
    ensures d in states[n].table.rows && states[n].table.rows[d].attemptCount > states[k].table.rows[d].attemptCount
  {
    var ticks, late := Waiting(cfg, states, labels, k, n, w, t, d);
    WaitedEnough(cfg, states[k].table, states[n].table, ticks, late, t, d);
  }
}
