/**
 * The condition of the bound on waiting is exact: a delivery that a stale redrive request holds can be
 * moved past `t` without an attempt, and the loop can then tick for as long as one likes without it.
 */
module Starvation {
  import opened Prelude
  import opened Worker
  import opened Queue
  import opened Guarantees
  import opened Fairness

  /** The claim query always has an answer. */
  lemma {:induction false} AnswerFrom(rows: map<Id, Delivery>, now: Time, limit: nat, ids: seq<Id>, todo: set<Id>)
    returns (answer: seq<Id>)
    requires Selecting(rows, now, ids, todo) && |ids| <= limit
    ensures ClaimAnswer(Table(rows), now, limit, {}, answer)
    decreases |todo|
  {
    if todo == {} || |ids| == limit {
      SelectingEnd(Table(rows), now, limit, ids, todo);
      answer := ids;
    } else {
      EarliestExists(rows, todo);
      var first :| first in todo && IsEarliest(rows, todo, first);
      SelectingStep(rows, now, ids, todo, first);
      answer := AnswerFrom(rows, now, limit, ids + [first], todo - {first});
    }
  }

  lemma AnswerExists(rows: map<Id, Delivery>, now: Time, limit: nat) returns (answer: seq<Id>)
    ensures ClaimAnswer(Table(rows), now, limit, {}, answer)
  {
    var todo := set d | d in rows && IsDue(rows[d], now);
    assert Selecting(rows, now, [], todo);
    answer := AnswerFrom(rows, now, limit, [], todo);
  }

  /** The run goes on from where it stood, with worker `w` as its only loop and no claim before `t`. */
  ghost predicate Longer(cfg: Settings, states: seq<Sys>, labels: seq<Label>, states': seq<Sys>, labels': seq<Label>,
                         w: WorkerId, t: Time)
  {
    && Run(cfg, states', labels') && |states| == |labels| + 1 && states <= states' && labels <= labels'
    && LoneRun(labels', |labels|, |labels'|, w, t)
  }

  lemma Further(cfg: Settings, states: seq<Sys>, labels: seq<Label>, s1: seq<Sys>, l1: seq<Label>, l: Label,
                w: WorkerId, t: Time)
    returns (states': seq<Sys>, labels': seq<Label>)
    requires Longer(cfg, states, labels, s1, l1, w, t) && Enabled(cfg, s1[|l1|], l) && LoneLabel(l, w, t)
    ensures Longer(cfg, states, labels, states', labels', w, t) && |labels'| == |l1| + 1
    ensures states' == s1 + [Exec(cfg, s1[|l1|], l)] && labels' == l1 + [l]
  {
    RunSnoc(cfg, s1, l1, l, Exec(cfg, s1[|l1|], l));
    states', labels' := s1 + [Exec(cfg, s1[|l1|], l)], l1 + [l];
  }

  /** The lone loop can begin a tick between two ticks; nothing is locked, so it claims from the whole table. */
  lemma BeginTick(cfg: Settings, states: seq<Sys>, labels: seq<Label>, s0: seq<Sys>, l0: seq<Label>, w: WorkerId,
                  t: Time)
    returns (states': seq<Sys>, labels': seq<Label>)
    requires Longer(cfg, states, labels, s0, l0, w, t)
    requires s0[|l0|].txs == map[] && NothingInFlight(s0[|l0|].table)
    ensures Longer(cfg, states, labels, states', labels', w, t)
    ensures var s, s' := s0[|l0|], states'[|labels'|];
      && s' == s.(txs := s'.txs) && s'.txs.Keys == {w} && s'.txs[w].claimed && s'.txs[w].posted == 0
      && s'.txs[w].claimedAt == t
  {
    var s := s0[|l0|];
    var s1, l1 := Further(cfg, states, labels, s0, l0, Label.Recover(w, "w", t), w, t);
    var x := BeginTx(s.table, "w", t);
    assert x.writes == map[];
    assert s1[|l1|] == s.(txs := map[w := x]);
    assert View(s.table, x) == Table(s.table.rows) by {
      assert s.table.rows + map[] == s.table.rows;
    }
    var ids := AnswerExists(s.table.rows, t, cfg.batchSize);
    assert LockedByOthers(s1[|l1|], w) == {};
    states', labels' := Further(cfg, states, labels, s1, l1, Label.Claim(w, t, ids), w, t);
  }

  /** Every claimed delivery can be posted; here all posts fail. */
  lemma {:induction false} PostAllFailing(cfg: Settings, states: seq<Sys>, labels: seq<Label>, s0: seq<Sys>,
                                          l0: seq<Label>,
                                          w: WorkerId, t: Time)
    returns (states': seq<Sys>, labels': seq<Label>)
    requires Longer(cfg, states, labels, s0, l0, w, t) && StartAccounted(cfg, s0[0].table)
    requires s0[|l0|].txs.Keys == {w} && s0[|l0|].txs[w].claimed && s0[|l0|].txs[w].posted <= |s0[|l0|].txs[w].ids|
    ensures Longer(cfg, states, labels, states', labels', w, t)
    ensures var s, s' := s0[|l0|], states'[|labels'|];
      && s' == s.(txs := s'.txs) && s'.txs.Keys == {w} && s'.txs[w].claimed
      && s'.txs[w].posted == |s'.txs[w].ids| && s'.txs[w].claimedAt == s.txs[w].claimedAt
    decreases |s0[|l0|].txs[w].ids| - s0[|l0|].txs[w].posted
  {
    var x := s0[|l0|].txs[w];
    if x.posted == |x.ids| {
      states', labels' := s0, l0;
    } else {
      var reply := Reply(Unreachable, x.claimedAt, x.claimedAt, 0.0);
      PostNeverConflicts(cfg, s0, l0, |l0|, w, reply);
      var s1, l1 := Further(cfg, states, labels, s0, l0, Post(w, reply), w, t);
      states', labels' := PostAllFailing(cfg, states, labels, s1, l1, w, t);
    }
  }

  /** Rows that are not due at the claim stay out of the transaction. */
  lemma NotDueNotWritten(cfg: Settings, table: Table, x: Tx, d: Id)
    requires TxInv(cfg, table, x) && NothingInFlight(table) && d in table.rows
    requires x.claimedAt < table.rows[d].nextAttemptAt
    ensures d !in x.writes
  {
    assert RowInv(cfg, table.rows[d], d, x);
  }

  /** The rows that are due only after `t` are still there as they were. */
  ghost predicate LaterKept(before: Table, after: Table, t: Time) {
    forall d :: d in before.rows && t < before.rows[d].nextAttemptAt ==>
      d in after.rows && after.rows[d] == before.rows[d]
  }

  lemma CommitKeepsLater(cfg: Settings, init: Table, s: Sys, w: WorkerId, t: Time)
    requires Inv(cfg, init, s) && Enabled(cfg, s, Label.Commit(w)) && NothingInFlight(s.table)
    requires s.txs[w].claimedAt == t
    ensures LaterKept(s.table, Exec(cfg, s, Label.Commit(w)).table, t)
  {
    forall d | d in s.table.rows && t < s.table.rows[d].nextAttemptAt ensures d !in s.txs[w].writes {
      NotDueNotWritten(cfg, s.table, s.txs[w], d);
    }
  }

  /** Between two ticks of the loop, in a run from a table with accounted rows. */
  ghost predicate BetweenTicks(cfg: Settings, states: seq<Sys>, labels: seq<Label>) {
    && Run(cfg, states, labels) && StartAccounted(cfg, states[0].table)
    && states[|labels|].txs == map[] && NothingInFlight(states[|labels|].table)
  }

  /** The committed rows, due by `t`, that the continuation has added. */
  function Late(states: seq<Sys>, states': seq<Sys>, t: Time): nat
    requires 0 < |states| && 0 < |states'|
  {
    LateSince(states'[|states'| - 1].log, |states[|states| - 1].log|, t)
  }

  /** A commit of the one tick ends it, and adds nothing to those due by `t`. */
  lemma EndTick(cfg: Settings, states: seq<Sys>, labels: seq<Label>, s0: seq<Sys>, l0: seq<Label>, w: WorkerId, t: Time)
    returns (states': seq<Sys>, labels': seq<Label>)
    requires BetweenTicks(cfg, states, labels) && Longer(cfg, states, labels, s0, l0, w, t)
    requires Enabled(cfg, s0[|l0|], Label.Commit(w)) && s0[|l0|].txs.Keys == {w} && s0[|l0|].txs[w].claimedAt == t
    requires NothingInFlight(s0[|l0|].table)
    ensures BetweenTicks(cfg, states', labels') && Longer(cfg, states, labels, states', labels', w, t)
    ensures Ticks(states'[|labels'|].log) == Ticks(s0[|l0|].log) + 1 && Late(states, states', t) == Late(states, s0, t)
    ensures LaterKept(s0[|l0|].table, states'[|labels'|].table, t)
  {
    var s := s0[|l0|];
    assert s0[|labels|] == states[|labels|];
    RunKeepsInv(cfg, s0, l0, |l0|);
    CommitKeepsLater(cfg, s0[0].table, s, w, t);
    LoneStates(cfg, s0, l0, |labels|, |l0|, w, t);
    LogSnoc(s.log, Batched(BatchOf(s.txs[w])), |states[|labels|].log|, t);
    states', labels' := Further(cfg, states, labels, s0, l0, Label.Commit(w), w, t);
    assert s.txs - {w} == map[];
    assert states'[|labels|] == states[|labels|] && states'[0] == states[0];
    LoneStates(cfg, states', labels', |labels|, |labels'|, w, t);
  }

  /** One whole tick. */
  lemma OneTick(cfg: Settings, states: seq<Sys>, labels: seq<Label>, s0: seq<Sys>, l0: seq<Label>, w: WorkerId, t: Time)
    returns (states': seq<Sys>, labels': seq<Label>)
    requires BetweenTicks(cfg, states, labels) && BetweenTicks(cfg, s0, l0) && Longer(cfg, states, labels, s0, l0, w, t)
    ensures BetweenTicks(cfg, states', labels') && Longer(cfg, states, labels, states', labels', w, t)
    ensures Ticks(states'[|labels'|].log) == Ticks(s0[|l0|].log) + 1 && Late(states, states', t) == Late(states, s0, t)
    ensures LaterKept(s0[|l0|].table, states'[|labels'|].table, t)
  {
    var s1, l1 := BeginTick(cfg, states, labels, s0, l0, w, t);
    assert s1[0] == states[0] == s0[0];
    var s2, l2 := PostAllFailing(cfg, states, labels, s1, l1, w, t);
    states', labels' := EndTick(cfg, states, labels, s2, l2, w, t);
  }

  /** As many ticks as one likes. */
  lemma {:induction false} ManyTicks(cfg: Settings, states: seq<Sys>, labels: seq<Label>, s0: seq<Sys>, l0: seq<Label>,
                                     w: WorkerId, t: Time, count: nat)
    returns (states': seq<Sys>, labels': seq<Label>)
    requires BetweenTicks(cfg, states, labels) && BetweenTicks(cfg, s0, l0) && Longer(cfg, states, labels, s0, l0, w, t)
    ensures BetweenTicks(cfg, states', labels') && Longer(cfg, states, labels, states', labels', w, t)
    ensures Ticks(states'[|labels'|].log) == Ticks(s0[|l0|].log) + count
    ensures Late(states, states', t) == Late(states, s0, t)
    ensures LaterKept(s0[|l0|].table, states'[|labels'|].table, t)
  {
    if count == 0 {
      states', labels' := s0, l0;
    } else {
      var s1, l1 := ManyTicks(cfg, states, labels, s0, l0, w, t, count - 1);
      states', labels' := OneTick(cfg, states, labels, s1, l1, w, t);
    }
  }

  /** The stale write: the delivery is now due after `t`, without an attempt, and nothing has joined the queue. */
  lemma Postpone(cfg: Settings, states: seq<Sys>, labels: seq<Label>, w: WorkerId, t: Time, q: RequestId, d: Id)
    returns (states': seq<Sys>, labels': seq<Label>)
    requires BetweenTicks(cfg, states, labels) && d in DueBy(states[|labels|].table, t)
    requires q in states[|labels|].readers && states[|labels|].readers[q] == d
    ensures BetweenTicks(cfg, states', labels') && Longer(cfg, states, labels, states', labels', w, t)
    ensures Ticks(states'[|labels'|].log) == Ticks(states[|labels|].log) && Late(states, states', t) == 0
    ensures d in states'[|labels'|].table.rows
    ensures states'[|labels'|].table.rows[d] == RedriveRow(states[|labels|].table.rows[d], t + 1.0)
  {
    var s := states[|labels|];
    var l := RedriveWrite(q, t + 1.0);
    assert !Locked(s, d);
    states', labels' := Further(cfg, states, labels, states, labels, l, w, t);
    assert states'[0] == states[0] && states'[|labels|] == s;
    LogSnoc(s.log, Redriven(d, t + 1.0), |s.log|, t);
    LoneStates(cfg, states', labels', |labels|, |labels'|, w, t);
  }

  /**
   * A stale redrive request starves the delivery it holds: the run can go on, past `t`, with any
   * number of committed ticks and no new row due by `t`, and the delivery is attempted in none of them.
   */
  lemma StaleRedriveStarves(cfg: Settings, states: seq<Sys>, labels: seq<Label>, w: WorkerId, t: Time, d: Id,
                            count: nat)
    returns (states': seq<Sys>, labels': seq<Label>)
    requires BetweenTicks(cfg, states, labels) && d in DueBy(states[|labels|].table, t) && Held(states[|labels|], d)
    ensures Longer(cfg, states, labels, states', labels', w, t)
    ensures Ticks(states'[|labels'|].log) == Ticks(states[|labels|].log) + count && Late(states, states', t) == 0
    ensures d in states'[|labels'|].table.rows
    ensures states'[|labels'|].table.rows[d].attemptCount == states[|labels|].table.rows[d].attemptCount
  {
    var q :| q in states[|labels|].readers && states[|labels|].readers[q] == d;
    var s1, l1 := Postpone(cfg, states, labels, w, t, q, d);
    states', labels' := ManyTicks(cfg, states, labels, s1, l1, w, t, count);
  }

  /** Enough ticks for the rows that were due by `t` at the start and for those that have joined them since. */
  predicate Served(cfg: Settings, states: seq<Sys>, states': seq<Sys>, t: Time)
    requires 0 < |states| && 0 < |states'|
  {
    var start, now := states[|states| - 1], states'[|states'| - 1];
    Ticks(now.log) >= Ticks(start.log) + Ceil(|DueBy(start.table, t)| + Late(states, states', t), cfg.batchSize)
  }

  /** However the run goes on past `t` with `w` as its only loop, `d` is attempted within the bound. */
  ghost predicate BoundedWait(cfg: Settings, states: seq<Sys>, labels: seq<Label>, w: WorkerId, t: Time, d: Id)
    requires |states| == |labels| + 1 && d in states[|labels|].table.rows
  {
    forall states': seq<Sys>, labels': seq<Label> | Longer(cfg, states, labels, states', labels', w, t) ::
      Served(cfg, states, states', t) ==>
        && d in states'[|labels'|].table.rows
        && states'[|labels'|].table.rows[d].attemptCount > states[|labels|].table.rows[d].attemptCount
  }

  /**
   * In every reachable state between two ticks, the bound of ceil((r + a) / batch_size) ticks holds for a
   * delivery due at `t`, over everything that can follow, if and only if no redrive request holds it. Here
   * r rows are due by `t`, and a more are committed later with such a due time.
   */
  lemma BoundedWaitIff(cfg: Settings, states: seq<Sys>, labels: seq<Label>, w: WorkerId, t: Time, d: Id)
    requires BetweenTicks(cfg, states, labels) && d in DueBy(states[|labels|].table, t)
    ensures BoundedWait(cfg, states, labels, w, t, d) <==> !Held(states[|labels|], d)
  {
    var start := states[|labels|];
    if Held(start, d) {
      var bound := Ceil(|DueBy(start.table, t)|, cfg.batchSize);
      var states', labels' := StaleRedriveStarves(cfg, states, labels, w, t, d, bound);
      assert Longer(cfg, states, labels, states', labels', w, t) && Served(cfg, states, states', t);
    } else {
      forall states': seq<Sys>, labels': seq<Label> | Longer(cfg, states, labels, states', labels', w, t)
          && Served(cfg, states, states', t)
        ensures d in states'[|labels'|].table.rows
        ensures states'[|labels'|].table.rows[d].attemptCount > start.table.rows[d].attemptCount
      {
        assert states'[|labels|] == start;
        NoStarvation(cfg, states', labels', |labels|, |labels'|, w, t, d);
      }
    }
  }

  /** Such a state is reached, from an empty table: a run in which the bound fails. */
  lemma BoundFails(cfg: Settings, w: WorkerId) returns (states: seq<Sys>, labels: seq<Label>)
    ensures BetweenTicks(cfg, states, labels) && states[0].table == Table(map[])
    ensures 0 in DueBy(states[|labels|].table, 2.0) && !BoundedWait(cfg, states, labels, w, 2.0, 0)
  {
    var row;
    states, labels, row := HeldAndDue(cfg);
    assert states[8].readers[1] == 0;
    BoundedWaitIff(cfg, states, labels, w, 2.0, 0);
  }

  // --- the rows that join late have to be counted ---

  const WAITING := NEW_ROW.(nextAttemptAt := 2.0)
  const LATE := NEW_ROW.(nextAttemptAt := 1.0)

  lemma EarlierAnswers()
    ensures ClaimAnswer(Table(map[0 := WAITING, 1 := LATE]), 2.0, 1, {}, [1])
  {
  }

  lemma EarlierLeased(cfg: Settings, x: Tx)
    requires x == Tx("w", 2.0, false, 2.0, [], 0, map[], map[])
    ensures var table := Table(map[0 := WAITING, 1 := LATE]);
      && View(table, x) == table
      && ClaimTx(cfg, table, x, 2.0, [1])
         == Tx("w", 2.0, true, 2.0, [1], 0, map[], map[1 := ClaimRow(LATE, 2.0 + cfg.lease, "w")])
  {
    var table := Table(map[0 := WAITING, 1 := LATE]);
    assert View(table, x) == table;
    assert ClaimTx(cfg, table, x, 2.0, [1]).writes == map[1 := ClaimRow(LATE, 2.0 + cfg.lease, "w")];
  }

  lemma NothingExpired(cfg: Settings, s: Sys, w: WorkerId) returns (s1: Sys)
    requires s.txs == map[] && s.table == Table(map[0 := WAITING, 1 := LATE])
    ensures Step(cfg, s, Label.Recover(w, "w", 2.0), s1)
    ensures s1 == s.(txs := map[w := Tx("w", 2.0, false, 2.0, [], 0, map[], map[])])
  {
    s1 := Exec(cfg, s, Label.Recover(w, "w", 2.0));
    assert BeginTx(s.table, "w", 2.0).writes == map[];
  }

  /** Two rows are due, and a batch of one takes the earlier. */
  lemma EarlierFirst(cfg: Settings, s: Sys, w: WorkerId) returns (s1: Sys, s2: Sys)
    requires cfg.batchSize == 1 && s.txs == map[] && s.table == Table(map[0 := WAITING, 1 := LATE])
    ensures Step(cfg, s, Label.Recover(w, "w", 2.0), s1) && Step(cfg, s1, Label.Claim(w, 2.0, [1]), s2)
    ensures s2 == s.(txs := s2.txs) && s2.txs.Keys == {w}
    ensures s2.txs[w] == Tx("w", 2.0, true, 2.0, [1], 0, map[], map[1 := ClaimRow(LATE, 2.0 + cfg.lease, "w")])
  {
    s1 := NothingExpired(cfg, s, w);
    assert LockedByOthers(s1, w) == {};
    EarlierAnswers();
    EarlierLeased(cfg, s1.txs[w]);
    s2 := Exec(cfg, s1, Label.Claim(w, 2.0, [1]));
  }

  /** The claimed row is posted and committed; the other one is as it was. */
  lemma NewcomerDone(cfg: Settings, s: Sys, w: WorkerId, reply: Reply) returns (s1: Sys, s2: Sys)
    requires reply == Reply(Unreachable, 2.0, 2.0, 0.0) && s.table == Table(map[0 := WAITING, 1 := LATE])
    requires s.txs.Keys == {w}
    requires s.txs[w] == Tx("w", 2.0, true, 2.0, [1], 0, map[], map[1 := ClaimRow(LATE, 2.0 + cfg.lease, "w")])
    ensures Step(cfg, s, Post(w, reply), s1) && Step(cfg, s1, Label.Commit(w), s2)
    ensures s2.txs == map[] && s2.table.rows.Keys == {0, 1} && s2.table.rows[0] == WAITING
    ensures exists b :: s2.log == s.log + [Batched(b)]
  {
    s1 := Exec(cfg, s, Post(w, reply));
    assert s1.txs[w].posted == 1 && s1.txs[w].writes.Keys == {1};
    s2 := Exec(cfg, s1, Label.Commit(w));
  }

  /** An ingestion that read its clock at 1.0 commits when a delivery due at 2.0 is alone in the queue. */
  lemma NewcomerJoins(cfg: Settings) returns (states: seq<Sys>, labels: seq<Label>, joined: Sys)
    ensures BetweenTicks(cfg, states, labels) && states[0].table == Table(map[])
    ensures states[|labels|].table == Table(map[0 := WAITING]) && states[|labels|].readers == map[]
    ensures Step(cfg, states[|labels|], Ingest(map[1 := LATE]), joined)
    ensures joined.table == Table(map[0 := WAITING, 1 := LATE]) && joined.txs == map[]
    ensures joined.log == states[|labels|].log + [Ingested(map[1 := LATE])]
  {
    var empty := Sys(Table(map[]), map[], map[], []);
    var one := Exec(cfg, empty, Ingest(map[0 := WAITING]));
    assert map[] + map[0 := WAITING] == map[0 := WAITING];
    RunSnoc(cfg, [empty], [], Ingest(map[0 := WAITING]), one);
    states, labels := [empty] + [one], [] + [Ingest(map[0 := WAITING])];
    joined := Exec(cfg, one, Ingest(map[1 := LATE]));
    assert joined.table.rows == map[0 := WAITING, 1 := LATE];
  }

  lemma LoneFive(labels: seq<Label>, l0: Label, l1: Label, l2: Label, l3: Label, l4: Label, w: WorkerId)
    requires forall l :: l in {l0, l1, l2, l3, l4} ==> LoneLabel(l, w, 2.0)
    ensures LoneRun(labels + [l0] + [l1, l2, l3, l4], |labels|, |labels| + 5, w, 2.0)
  {
  }

  lemma NewcomerFirst(cfg: Settings, states: seq<Sys>, labels: seq<Label>, joined: Sys, w: WorkerId)
    returns (states': seq<Sys>, labels': seq<Label>, last: Sys)
    requires cfg.batchSize == 1 && Run(cfg, states, labels) && joined.txs == map[]
    requires Step(cfg, states[|labels|], Ingest(map[1 := LATE]), joined)
    requires joined.table == Table(map[0 := WAITING, 1 := LATE])
    ensures Longer(cfg, states, labels, states', labels', w, 2.0) && states'[|labels'|] == last
    ensures last.table.rows.Keys == {0, 1} && last.table.rows[0] == WAITING
    ensures exists b :: last.log == joined.log + [Batched(b)]
  {
    var ingest, reply := Ingest(map[1 := LATE]), Reply(Unreachable, 2.0, 2.0, 0.0);
    RunSnoc(cfg, states, labels, ingest, joined);
    var s1, s2 := EarlierFirst(cfg, joined, w);
    var s3;
    s3, last := NewcomerDone(cfg, s2, w, reply);
    var l1: Label, l2, l3, l4 := Label.Recover(w, "w", 2.0), Label.Claim(w, 2.0, [1]), Post(w, reply), Label.Commit(w);
    states', labels' := FourMore(cfg, states + [joined], labels + [ingest], l1, s1, l2, s2, l3, s3, l4, last);
    LoneFive(labels, ingest, l1, l2, l3, l4, w);
  }

  lemma NewcomerCounted(start: seq<Commit>, joined: seq<Commit>, last: seq<Commit>)
    requires joined == start + [Ingested(map[1 := LATE])] && exists b :: last == joined + [Batched(b)]
    ensures LateSince(last, |start|, 2.0) == 1 && Ticks(last) == Ticks(start) + 1
  {
    var b :| last == joined + [Batched(b)];
    assert Arrivals(Ingested(map[1 := LATE]), 2.0) == {1};
    LogSnoc(start, Ingested(map[1 := LATE]), |start|, 2.0);
    LogSnoc(joined, Batched(b), |start|, 2.0);
  }

  /**
   * The count of late rows cannot be left out of the bound: with batches of one, the next tick takes the
   * newcomer, and the delivery that was alone in the queue still waits. No redrive request is open.
   */
  lemma LateArrivalDelays(cfg: Settings, w: WorkerId)
    returns (states: seq<Sys>, labels: seq<Label>, states': seq<Sys>, labels': seq<Label>)
    requires cfg.batchSize == 1
    ensures BetweenTicks(cfg, states, labels) && states[0].table == Table(map[])
    ensures DueBy(states[|labels|].table, 2.0) == {0} && !Held(states[|labels|], 0)
    ensures Longer(cfg, states, labels, states', labels', w, 2.0) && Late(states, states', 2.0) == 1
    ensures Ticks(states'[|labels'|].log) == Ticks(states[|labels|].log) + 1
    ensures 0 in states'[|labels'|].table.rows && states'[|labels'|].table.rows[0] == states[|labels|].table.rows[0]
  {
    var joined;
    states, labels, joined := NewcomerJoins(cfg);
    var last;
    states', labels', last := NewcomerFirst(cfg, states, labels, joined, w);
    NewcomerCounted(states[|labels|].log, joined.log, last.log);
  }
}
