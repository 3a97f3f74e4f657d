/**
 * A complete run of the whole system, from the empty database, for every trade and configuration. The
 * trade is logged and fanned out. A worker claims the delivery, the bank applies the trade but is flaky
 * and answers 500, and the worker crashes before it commits. A second tick claims the delivery again,
 * the bank finds a duplicate and answers 500, and the failed attempt is committed. After the retry delay
 * (and a redrive, where one attempt is all the configuration allows) a third tick posts again, the bank,
 * now healthy, answers 200, and the delivery succeeds. Each request reaches the bank while a worker
 * holds the delivery. At the end the hypotheses of `EndToEnd.ExactlyOnceMoney` hold, the bank has seen
 * three requests, the platform has recorded two attempts, and the money has moved once.
 */
module LostAck {
  import opened Prelude
  import opened Ledger
  import opened EndToEnd
  import Worker
  import Queue
  import Guarantees
  import SafeBank

  lemma RunSnoc(u: Setup, states: seq<World>, labels: seq<Label>, l: Label)
    requires Run(u, states, labels) && Enabled(u, states[|labels|], l)
    ensures Run(u, states + [Exec(u, states[|labels|], l)], labels + [l])
  {
    var states', labels' := states + [Exec(u, states[|labels|], l)], labels + [l];
    forall i | 0 <= i < |labels'|
      ensures Enabled(u, states'[i], labels'[i]) && states'[i + 1] == Exec(u, states'[i], labels'[i])
    {
      if i < |labels| {
        assert states'[i] == states[i] && states'[i + 1] == states[i + 1] && labels'[i] == labels[i];
      }
    }
  }

  function FirstRow(u: Setup): Worker.Delivery {
    Worker.Delivery(0, u.bank, Worker.Pending, 0, 0.0, None, None, map[])
  }

  function TradeRequest(trade: Trade): SafeBank.Request {
    SafeBank.Request(Some(0), Some(trade), true)
  }

  // ---------------------------------------------------------------------------
  // What the bank does with one request
  // ---------------------------------------------------------------------------

  /** The run of a bank from `s`, by the steps `ls`, through `steps`. */
  ghost predicate BankRun(s: SafeBank.Sys, steps: seq<SafeBank.Sys>, ls: seq<SafeBank.Label>) {
    && |steps| == |ls| + 1 && steps[0] == s
    && forall i :: 0 <= i < |ls| ==> SafeBank.Enabled(steps[i], ls[i]) && steps[i + 1] == SafeBank.Exec(steps[i], ls[i])
  }

  predicate OnlyTrade(ls: seq<SafeBank.Label>, trade: Trade) {
    forall i :: 0 <= i < |ls| && ls[i].Receive? ==> ls[i].req == TradeRequest(trade)
  }

  /** The bank applies the trade while flaky, and answers 500. */
  lemma ApplyOnce(s: SafeBank.Sys, trade: Trade) returns (steps: seq<SafeBank.Sys>, ls: seq<SafeBank.Label>)
    requires s == SafeBank.START
    ensures BankRun(s, steps, ls) && OnlyTrade(ls, trade) && |ls| == 5
    ensures steps[5].txs == map[] && steps[5].db.processed == {0} && |steps[5].answers| == 1
    ensures steps[5].answers[0].status == SafeBank.SERVER_ERROR
  {
    ls := [SafeBank.Receive(0, TradeRequest(trade), SafeBank.Flaky), SafeBank.InsertProcessed(0), SafeBank.EnsureRow(0),
           SafeBank.LockRow(0), SafeBank.Commit(0)];
    var s1 := SafeBank.Exec(s, ls[0]);
    var s2 := SafeBank.Exec(s1, ls[1]);
    var s3 := SafeBank.Exec(s2, ls[2]);
    var s4 := SafeBank.Exec(s3, ls[3]);
    steps := [s, s1, s2, s3, s4, SafeBank.Exec(s4, ls[4])];
  }

  /** Later requests are deduplicated, and answered according to the mode. */
  lemma Deduplicate(s: SafeBank.Sys, trade: Trade, mode: SafeBank.Mode)
    returns (steps: seq<SafeBank.Sys>, ls: seq<SafeBank.Label>)
    requires s.txs == map[] && 0 in s.db.processed && mode != SafeBank.Down
    ensures BankRun(s, steps, ls) && OnlyTrade(ls, trade) && |ls| == 3
    ensures steps[3].txs == map[] && steps[3].db == s.db
    ensures steps[3].answers == s.answers + [SafeBank.Answer(TradeRequest(trade), mode, SafeBank.Ack(mode))]
  {
    ls := [SafeBank.Receive(1, TradeRequest(trade), mode), SafeBank.InsertProcessed(1), SafeBank.Commit(1)];
    var s1 := SafeBank.Exec(s, ls[0]);
    var s2 := SafeBank.Exec(s1, ls[1]);
    steps := [s, s1, s2, SafeBank.Exec(s2, ls[2])];
  }

  // ---------------------------------------------------------------------------
  // Steps of one component, taken one after another by the whole system
  // ---------------------------------------------------------------------------

  predicate Holding(w: World) {
    0 in w.queue.txs && w.queue.txs[0].claimed && w.queue.txs[0].ids == [0]
  }

  /** Every request is handled while a worker's open transaction holds the delivery. */
  ghost predicate Served(states: seq<World>, labels: seq<Label>) {
    |states| == |labels| + 1 &&
    forall i :: 0 <= i < |labels| && labels[i].BankStep? ==> Holding(states[i])
  }

  const CRASH := QueueStep(Queue.Abort(0))

  /** A run of that kind, with a crash in it if `crashed`. */
  ghost predicate GoodRun(u: Setup, states: seq<World>, labels: seq<Label>, crashed: bool) {
    Run(u, states, labels) && Served(states, labels) && (crashed ==> CRASH in labels)
  }

  lemma GoodSnoc(u: Setup, states: seq<World>, labels: seq<Label>, crashed: bool, l: Label)
    returns (states': seq<World>, labels': seq<Label>)
    requires GoodRun(u, states, labels, crashed) && Enabled(u, states[|labels|], l)
    requires l.BankStep? ==> Holding(states[|labels|])
    ensures GoodRun(u, states', labels', crashed || l == CRASH)
    ensures states' == states + [Exec(u, states[|labels|], l)] && labels' == labels + [l]
  {
    RunSnoc(u, states, labels, l);
    states', labels' := states + [Exec(u, states[|labels|], l)], labels + [l];
    forall i | 0 <= i < |labels'| && labels'[i].BankStep? ensures Holding(states'[i]) {
      assert states'[i] == states[i];
    }
  }

  lemma {:induction false} LiftBank(u: Setup, states: seq<World>, labels: seq<Label>, crashed: bool,
                                    steps: seq<SafeBank.Sys>, ls: seq<SafeBank.Label>)
    returns (states': seq<World>, labels': seq<Label>)
    requires GoodRun(u, states, labels, crashed) && Holding(states[|labels|])
    requires BankRun(states[|labels|].bank, steps, ls)
    requires forall i :: 0 <= i < |ls| && ls[i].Receive? ==> Honest(states[|labels|].events, ls[i].req)
    ensures GoodRun(u, states', labels', crashed) && |labels'| == |labels| + |ls|
    ensures states'[|labels'|] == states[|labels|].(bank := steps[|ls|])
    decreases |ls|
  {
    if ls == [] {
      states', labels' := states, labels;
    } else {
      var k := |ls| - 1;
      states', labels' := LiftBank(u, states, labels, crashed, steps[..k + 1], ls[..k]);
      states', labels' := GoodSnoc(u, states', labels', crashed, BankStep(ls[k]));
    }
  }

  /** The bank handles requests for the logged trade. */
  lemma BankHandles(u: Setup, states: seq<World>, labels: seq<Label>, crashed: bool, trade: Trade,
                    steps: seq<SafeBank.Sys>, ls: seq<SafeBank.Label>)
    returns (states': seq<World>, labels': seq<Label>)
    requires GoodRun(u, states, labels, crashed) && Holding(states[|labels|])
    requires states[|labels|].events == [Event(0, trade)]
    requires BankRun(states[|labels|].bank, steps, ls) && OnlyTrade(ls, trade)
    ensures GoodRun(u, states', labels', crashed) && |labels'| == |labels| + |ls|
    ensures states'[|labels'|] == states[|labels|].(bank := steps[|ls|])
  {
    states', labels' := LiftBank(u, states, labels, crashed, steps, ls);
  }

  lemma QueueMoves(u: Setup, states: seq<World>, labels: seq<Label>, crashed: bool, l: Queue.Label, q: Queue.Sys)
    returns (states': seq<World>, labels': seq<Label>)
    requires GoodRun(u, states, labels, crashed) && Queue.Step(u.cfg, states[|labels|].queue, l, q)
    requires AnswersAreReal(u, states[|labels|], l)
    ensures GoodRun(u, states', labels', crashed) && |labels'| == |labels| + 1
    ensures states'[|labels'|] == states[|labels|].(queue := q)
  {
    states', labels' := GoodSnoc(u, states, labels, crashed, QueueStep(l));
  }

  // ---------------------------------------------------------------------------
  // The stages of the run
  // ---------------------------------------------------------------------------

  /** The one trade is logged, its one delivery is `row`, and the bank is between requests. */
  predicate Stage(w: World, trade: Trade, row: Worker.Delivery, txs: map<Queue.WorkerId, Queue.Tx>, requests: nat) {
    && w.events == [Event(0, trade)]
    && w.queue.table == Worker.Table(map[0 := row]) && w.queue.txs == txs && w.queue.readers == map[]
    && w.bank.txs == map[] && |w.bank.answers| == requests && (requests > 0 ==> 0 in w.bank.db.processed)
    && (requests == 0 ==> w.bank == SafeBank.START)
  }

  /** The trade is logged, with its delivery to the bank. */
  lemma PublishOne(u: Setup, trade: Trade) returns (states: seq<World>, labels: seq<Label>)
    ensures GoodRun(u, states, labels, false) && |labels| == 1 && Stage(states[1], trade, FirstRow(u), map[], 0)
  {
    var w := World(Queue.Sys(NO_ROWS, map[], map[], []), SafeBank.START, []);
    var l := Publish([Event(0, trade)], map[0 := FirstRow(u)]);
    assert Run(u, [w], []);
    RunSnoc(u, [w], [], l);
    states, labels := [w] + [Exec(u, w, l)], [] + [l];
    assert NO_ROWS.rows + map[0 := FirstRow(u)] == map[0 := FirstRow(u)];
  }

  /** A worker recovers and claims the delivery: from now on it holds it. */
  lemma Take(u: Setup, states: seq<World>, labels: seq<Label>, crashed: bool, trade: Trade, row: Worker.Delivery,
             requests: nat, now: Time)
    returns (states': seq<World>, labels': seq<Label>)
    requires GoodRun(u, states, labels, crashed) && Stage(states[|labels|], trade, row, map[], requests)
    requires Worker.IsDue(row, now)
    ensures GoodRun(u, states', labels', crashed) && |labels'| == |labels| + 2
    ensures Stage(states'[|labels'|], trade, row, map[0 := Guarantees.ClaimedTx(u.cfg, row, now)], requests)
    ensures states'[|labels'|].bank == states[|labels|].bank
  {
    var a, b := Guarantees.ClaimAlone(u.cfg, states[|labels|].queue, row, now);
    states', labels' := QueueMoves(u, states, labels, crashed, Queue.Recover(0, "w", now), a);
    states', labels' := QueueMoves(u, states', labels', crashed, Queue.Claim(0, now, [0]), b);
  }

  /** The post has reached the bank, and the worker crashes: its transaction is gone. */
  lemma Crash(u: Setup, states: seq<World>, labels: seq<Label>, crashed: bool, trade: Trade, row: Worker.Delivery,
              requests: nat, now: Time)
    returns (states': seq<World>, labels': seq<Label>)
    requires GoodRun(u, states, labels, crashed)
    requires Stage(states[|labels|], trade, row, map[0 := Guarantees.ClaimedTx(u.cfg, row, now)], requests)
    ensures GoodRun(u, states', labels', true) && |labels'| == |labels| + 1
    ensures Stage(states'[|labels'|], trade, row, map[], requests)
  {
    var q := states[|labels|].queue;
    assert q.txs - {0} == map[];
    states', labels' := GoodSnoc(u, states, labels, crashed, CRASH);
  }

  /** The worker that holds the delivery gets the bank's answer and commits the attempt. */
  lemma Give(u: Setup, states: seq<World>, labels: seq<Label>, crashed: bool, trade: Trade, row: Worker.Delivery,
             requests: nat, now: Time,
             reply: Worker.Reply)
    returns (states': seq<World>, labels': seq<Label>)
    requires GoodRun(u, states, labels, crashed)
    requires Stage(states[|labels|], trade, row, map[0 := Guarantees.ClaimedTx(u.cfg, row, now)], requests)
    requires !Worker.Taken(row) && now <= reply.startedAt <= reply.finishedAt
    requires Worker.Accepted(reply.outcome) ==> row.eventId == 0 && Acked(states[|labels|].bank, 0)
    ensures GoodRun(u, states', labels', crashed) && |labels'| == |labels| + 2
    ensures Stage(states'[|labels'|], trade, Guarantees.AttemptedRow(u.cfg, row, now, reply), map[], requests)
    ensures states'[|labels'|].bank == states[|labels|].bank
  {
    var q := states[|labels|].queue;
    var a, b := Guarantees.PostAlone(u.cfg, q, row, now, reply);
    assert Queue.View(q.table, q.txs[0]).rows[0].eventId == row.eventId;
    states', labels' := QueueMoves(u, states, labels, crashed, Queue.Post(0, reply), a);
    states', labels' := QueueMoves(u, states', labels', crashed, Queue.Commit(0), b);
  }

  /** The operator redrives a dead-lettered delivery. */
  lemma Redrive(u: Setup, states: seq<World>, labels: seq<Label>, crashed: bool, trade: Trade, row: Worker.Delivery,
                requests: nat, now: Time)
    returns (states': seq<World>, labels': seq<Label>)
    requires GoodRun(u, states, labels, crashed) && Stage(states[|labels|], trade, row, map[], requests)
    requires row.status == Worker.DeadLettered
    ensures GoodRun(u, states', labels', crashed) && |labels'| == |labels| + 2
    ensures Stage(states'[|labels'|], trade, Queue.RedriveRow(row, now), map[], requests)
  {
    var q := states[|labels|].queue;
    var a := Queue.Exec(u.cfg, q, Queue.RedriveRead(0, 0));
    states', labels' := QueueMoves(u, states, labels, crashed, Queue.RedriveRead(0, 0), a);
    var b := Queue.Exec(u.cfg, a, Queue.RedriveWrite(0, now));
    states', labels' := QueueMoves(u, states', labels', crashed, Queue.RedriveWrite(0, now), b);
    assert b.readers == map[];
    assert b.table.rows == map[0 := Queue.RedriveRow(row, now)];
  }

  function Answered500(at: Time): Worker.Reply {
    Worker.Reply(Worker.Response(500), at, at, 0.0)
  }

  function Answered200(at: Time): Worker.Reply {
    Worker.Reply(Worker.Response(200), at, at, 0.0)
  }

  /** First tick: applied, answered 500, crashed. */
  lemma LostTick(u: Setup, trade: Trade) returns (states: seq<World>, labels: seq<Label>)
    ensures GoodRun(u, states, labels, true) && |labels| == 9 && Stage(states[9], trade, FirstRow(u), map[], 1)
  {
    states, labels := PublishOne(u, trade);
    states, labels := Take(u, states, labels, false, trade, FirstRow(u), 0, 1.0);
    var steps, ls := ApplyOnce(states[3].bank, trade);
    states, labels := BankHandles(u, states, labels, false, trade, steps, ls);
    states, labels := Crash(u, states, labels, false, trade, FirstRow(u), 1, 1.0);
  }

  /** The row after the second tick: one failed attempt. */
  function FailedRow(u: Setup): Worker.Delivery {
    Guarantees.AttemptedRow(u.cfg, FirstRow(u), 2.0, Answered500(2.0))
  }

  /** Second tick: duplicate, answered 500, attempt committed. */
  lemma FailedTick(u: Setup, trade: Trade) returns (states: seq<World>, labels: seq<Label>)
    ensures GoodRun(u, states, labels, true) && |labels| == 16 && Stage(states[16], trade, FailedRow(u), map[], 2)
  {
    states, labels := LostTick(u, trade);
    states, labels := Take(u, states, labels, true, trade, FirstRow(u), 1, 2.0);
    var steps, ls := Deduplicate(states[11].bank, trade, SafeBank.Flaky);
    states, labels := BankHandles(u, states, labels, true, trade, steps, ls);
    states, labels := Give(u, states, labels, true, trade, FirstRow(u), 2, 2.0, Answered500(2.0));
  }

  /** What is tried again: the retry that was scheduled, or the redriven row when M = 1. */
  function RetriedRow(u: Setup): Worker.Delivery {
    if FailedRow(u).status == Worker.DeadLettered then Queue.RedriveRow(FailedRow(u), 3.0) else FailedRow(u)
  }

  lemma Retry(u: Setup, trade: Trade) returns (states: seq<World>, labels: seq<Label>)
    ensures GoodRun(u, states, labels, true) && Stage(states[|labels|], trade, RetriedRow(u), map[], 2)
    ensures RetriedRow(u).status == Worker.Pending && !Worker.Taken(RetriedRow(u))
    ensures |labels| == if u.cfg.maxAttempts == 1 then 18 else 16
  {
    states, labels := FailedTick(u, trade);
    if FailedRow(u).status == Worker.DeadLettered {
      states, labels := Redrive(u, states, labels, true, trade, FailedRow(u), 2, 3.0);
    }
  }

  /** The row at the end: two attempts, the first answered 500, the second 200. */
  predicate FinalRow(u: Setup, row: Worker.Delivery) {
    && row.status == Worker.Succeeded && row.eventId == 0 && row.endpointId == u.bank
    && row.attemptCount == 2 && row.attempts.Keys == {1, 2}
    && row.attempts[1].outcome == Worker.Response(500) && row.attempts[2].outcome == Worker.Response(200)
  }

  lemma RetriedRowSucceeds(u: Setup, now: Time)
    ensures FinalRow(u, Guarantees.AttemptedRow(u.cfg, RetriedRow(u), now, Answered200(now)))
  {
    var row := Guarantees.AttemptedRow(u.cfg, RetriedRow(u), now, Answered200(now));
    assert FailedRow(u).attempts.Keys == {1};
    assert row.attempts.Keys == {1, 2};
  }

  /** Third tick: duplicate, answered 200, success committed. */
  lemma LastTick(u: Setup, trade: Trade) returns (states: seq<World>, labels: seq<Label>, row: Worker.Delivery)
    ensures GoodRun(u, states, labels, true) && |labels| == (if u.cfg.maxAttempts == 1 then 25 else 23)
    ensures Stage(states[|labels|], trade, row, map[], 3) && FinalRow(u, row)
  {
    states, labels := Retry(u, trade);
    var now := RetriedRow(u).nextAttemptAt;
    states, labels := Take(u, states, labels, true, trade, RetriedRow(u), 2, now);
    var steps, ls := Deduplicate(states[|labels|].bank, trade, SafeBank.Healthy);
    states, labels := BankHandles(u, states, labels, true, trade, steps, ls);
    assert steps[3].answers[2].req.event == Some(0) && steps[3].answers[2].status == SafeBank.OK;
    states, labels := Give(u, states, labels, true, trade, RetriedRow(u), 3, now, Answered200(now));
    row := Guarantees.AttemptedRow(u.cfg, RetriedRow(u), now, Answered200(now));
    RetriedRowSucceeds(u, now);
  }

  lemma Finished(u: Setup, w: World, trade: Trade, row: Worker.Delivery)
    requires Stage(w, trade, row, map[], 3) && FinalRow(u, row)
    ensures FannedOut(u, w) && NothingLeft(u, w)
  {
    assert DeliversTo(u, w.queue.table.rows[0], 0);
    assert HasDelivery(u, w, 0);
  }

  lemma OneTradeSum(trade: Trade)
    ensures Sum(TradesOf([Event(0, trade)]), trade.account) == trade.delta
  {
    assert TradesOf([Event(0, trade)]) == [trade];
    assert [trade][..0] == [];
  }

  lemma Credited(u: Setup, states: seq<World>, labels: seq<Label>, trade: Trade)
    requires Run(u, states, labels) && states[|labels|].events == [Event(0, trade)]
    requires FannedOut(u, states[|labels|]) && NothingLeft(u, states[|labels|])
    ensures Balance(states[|labels|], trade.account) == STARTING_BALANCE + trade.delta
  {
    BalancesMatchLog(u, states, labels, |labels|, trade.account);
    OneTradeSum(trade);
  }

  /** The run: three posts, one crash, two lost acknowledgements, two recorded attempts, the money moved once. */
  lemma LostAckRun(u: Setup, trade: Trade) returns (states: seq<World>, labels: seq<Label>)
    ensures GoodRun(u, states, labels, true)
    ensures var w := states[|labels|];
      && w.events == [Event(0, trade)] && |w.bank.answers| == 3
      && w.queue.table.rows.Keys == {0} && FinalRow(u, w.queue.table.rows[0])
      && FannedOut(u, w) && NothingLeft(u, w)
      && Balance(w, trade.account) == STARTING_BALANCE + trade.delta
  {
    var row;
    states, labels, row := LastTick(u, trade);
    Finished(u, states[|labels|], trade, row);
    Credited(u, states, labels, trade);
  }
}
