/**
 * The delivery worker (app/worker/delivery_worker.py): claim due deliveries, post them,
 * record the attempts, retry or dead-letter.
 *
 * A `Table` is the deliveries table, each row with its attempts. The functions on it
 * say what each operation means; the class `Session` carries the operations out in place.
 */
module Worker {
  import opened Prelude
  import Backoff

  type Id = nat
  type EventId = nat
  type EndpointId = nat

  datatype Status = Pending | InFlight | Succeeded | Failed | DeadLettered

  /** What a post came back with: refused by the URL check, no response, or an HTTP status. */
  datatype Outcome = Blocked | Unreachable | Response(code: int)

  /** One post as the worker sees it; `draw` is the jitter draw used if a retry is scheduled. */
  datatype Reply = Reply(outcome: Outcome, startedAt: Time, finishedAt: Time, draw: Draw)

  datatype Attempt = Attempt(outcome: Outcome, startedAt: Time, finishedAt: Time, worker: string)

  /** A delivery row with its attempt rows, keyed by their (unique) attempt number. */
  datatype Delivery = Delivery(
    eventId: EventId,
    endpointId: EndpointId,
    status: Status,
    attemptCount: nat,
    nextAttemptAt: Time,
    leasedUntil: Option<Time>,
    claimedBy: Option<string>,
    attempts: map<nat, Attempt>
  )

  /** The deliveries table. */
  datatype Table = Table(rows: map<Id, Delivery>)

  datatype SettingsFields = SettingsFields(maxAttempts: nat, base: real, cap: real, batchSize: nat, lease: real)

  type Settings = c: SettingsFields | c.maxAttempts >= 1 && c.base > 0.0 && c.cap > 0.0 && c.batchSize >= 1
    witness SettingsFields(6, 10.0, 3600.0, 10, 60.0)

  // ---------------------------------------------------------------------------
  // What one operation does to one row
  // ---------------------------------------------------------------------------

  predicate Accepted(o: Outcome) {
    o.Response? && 200 <= o.code < 300
  }

  predicate IsDue(row: Delivery, now: Time) {
    row.status == Pending && row.nextAttemptAt <= now
  }

  predicate LeaseExpired(row: Delivery, now: Time) {
    row.status == InFlight && row.leasedUntil.Some? && row.leasedUntil.value < now
  }

  function RecoverRow(row: Delivery, now: Time): Delivery {
    if LeaseExpired(row, now) then row.(status := Pending, leasedUntil := None) else row
  }

  function ClaimRow(row: Delivery, until: Time, name: string): Delivery {
    row.(status := InFlight, leasedUntil := Some(until), claimedBy := Some(name))
  }

  /** Recording the next attempt would violate the unique (delivery, number) constraint. */
  predicate Taken(row: Delivery) {
    row.attemptCount + 1 in row.attempts
  }

  /** Attempt `attemptCount + 1` on a row: record it, then succeed, dead-letter, or wait for a retry. */
  function ProcessRow(cfg: Settings, row: Delivery, reply: Reply, worker: string): Delivery {
    var n := row.attemptCount + 1;
    var tried := row.(attemptCount := n,
                      attempts := row.attempts[n := Attempt(reply.outcome, reply.startedAt, reply.finishedAt, worker)]);
    if reply.outcome.Blocked? then
      tried.(status := DeadLettered)
    else if Accepted(reply.outcome) then
      tried.(status := Succeeded)
    else if n >= cfg.maxAttempts then
      tried.(status := DeadLettered)
    else
      tried.(status := Pending, leasedUntil := None,
             nextAttemptAt := Backoff.NextAttemptAt(n, cfg.base, cfg.cap, reply.finishedAt, reply.draw))
  }

  /** What an attempt leaves behind: its row, and the status that the HTTP answer and the attempt limit decide. */
  ghost predicate RecordsReply(cfg: Settings, row: Delivery, reply: Reply, worker: string, after: Delivery) {
    && after.eventId == row.eventId && after.endpointId == row.endpointId && after.claimedBy == row.claimedBy
    && after.attemptCount == row.attemptCount + 1
    && after.attempts ==
       row.attempts[after.attemptCount := Attempt(reply.outcome, reply.startedAt, reply.finishedAt, worker)]
    && (after.status == Succeeded || after.status == DeadLettered || after.status == Pending)
    && (after.status == Succeeded <==> reply.outcome.Response? && 200 <= reply.outcome.code <= 299)
    && (after.status == DeadLettered <==>
          || reply.outcome.Blocked?
          || (after.attemptCount >= cfg.maxAttempts
              && (reply.outcome.Response? ==> reply.outcome.code < 200 || reply.outcome.code > 299)))
    && if after.status != Pending
       then after.leasedUntil == row.leasedUntil && after.nextAttemptAt == row.nextAttemptAt
       else after.leasedUntil == None
            && reply.finishedAt + Backoff.Delay(after.attemptCount, cfg.base, cfg.cap) <= after.nextAttemptAt
            && after.nextAttemptAt <= reply.finishedAt + 1.1 * Backoff.Delay(after.attemptCount, cfg.base, cfg.cap)
  }

  lemma ProcessRowRecords(cfg: Settings, row: Delivery, reply: Reply, worker: string)
    ensures RecordsReply(cfg, row, reply, worker, ProcessRow(cfg, row, reply, worker))
  {
  }

  /** The attempt numbers of a delivery are exactly 1..attemptCount. */
  ghost predicate RowAccounted(row: Delivery) {
    forall n: nat :: n in row.attempts <==> 1 <= n <= row.attemptCount
  }

  ghost predicate Accounted(t: Table) {
    forall d :: d in t.rows ==> RowAccounted(t.rows[d])
  }

  // ---------------------------------------------------------------------------
  // What one operation does to the table
  // ---------------------------------------------------------------------------

  function Recover(t: Table, now: Time): Table {
    Table(map d | d in t.rows :: RecoverRow(t.rows[d], now))
  }

  function Claim(t: Table, ids: seq<Id>, until: Time, name: string): Table {
    Table(map d | d in t.rows :: if d in ids then ClaimRow(t.rows[d], until, name) else t.rows[d])
  }

  /** The table as a worker sees it once it has recovered expired leases and claimed `ids`. */
  function AfterClaim(cfg: Settings, t: Table, name: string, recoveredAt: Time, claimedAt: Time, ids: seq<Id>): Table {
    Claim(Recover(t, recoveredAt), ids, claimedAt + cfg.lease, name)
  }

  /**
   * The batch loop, row by row: every delivery that was posted is attempted once, with its own
   * reply, and every other row stays as it was.
   */
  function ProcessAll(cfg: Settings, t: Table, replies: map<Id, Reply>, worker: string): Table {
    Table(map d | d in t.rows :: if d in replies then ProcessRow(cfg, t.rows[d], replies[d], worker) else t.rows[d])
  }

  /**
   * The answer of the claim query: at most `limit` distinct due rows outside `skip`, in order of
   * `nextAttemptAt`, and no due row outside `skip` was passed over for a later one.
   */
  ghost predicate ClaimAnswer(t: Table, now: Time, limit: nat, skip: set<Id>, ids: seq<Id>) {
    && Distinct(ids)
    && |ids| <= limit
    && (forall d :: d in ids ==> d in t.rows && IsDue(t.rows[d], now) && d !in skip)
    && (forall i, j :: 0 <= i < j < |ids| ==> t.rows[ids[i]].nextAttemptAt <= t.rows[ids[j]].nextAttemptAt)
    && (forall d :: d in t.rows && IsDue(t.rows[d], now) && d !in skip && d !in ids ==>
          |ids| == limit && forall i :: 0 <= i < |ids| ==> t.rows[ids[i]].nextAttemptAt <= t.rows[d].nextAttemptAt)
  }

  /**
   * Recovery touches exactly the rows whose lease has passed, leaves none of them behind, costs them
   * no attempt, and can be repeated: two recoveries are one, with the later clock.
   */
  lemma RecoverOnce(t: Table, early: Time, late: Time)
    requires early <= late
    ensures Recover(Recover(t, early), late) == Recover(t, late)
    ensures Recover(t, late).rows.Keys == t.rows.Keys
    ensures forall d :: d in t.rows ==>
              var row, after := t.rows[d], Recover(t, late).rows[d];
              && !LeaseExpired(after, late) && after.attempts == row.attempts && after.attemptCount == row.attemptCount
              && (after != row <==> row.status == InFlight && row.leasedUntil.Some? && row.leasedUntil.value < late)
              && (LeaseExpired(row, late) ==> forall now :: IsDue(after, now) <==> row.nextAttemptAt <= now)
  {
    assert Recover(Recover(t, early), late).rows == Recover(t, late).rows;
  }

  /** One tick of a worker loop: who ran, when, which rows it claimed, and what each post returned. */
  datatype Batch = Batch(name: string, recoveredAt: Time, claimedAt: Time, ids: seq<Id>, replies: map<Id, Reply>)

  /** `run_once` as one atomic change of the table. */
  function RunBatch(cfg: Settings, t: Table, b: Batch): Table {
    ProcessAll(cfg, AfterClaim(cfg, t, b.name, b.recoveredAt, b.claimedAt, b.ids), b.replies, b.name)
  }

  /** The row-by-row meaning of the loop is that of its steps: one more post changes one more row. */
  lemma ProcessOneMore(cfg: Settings, t: Table, d: Id, reply: Reply, replies: map<Id, Reply>, worker: string)
    requires d in t.rows && d !in replies
    ensures var done := ProcessAll(cfg, t, replies, worker);
      done.rows[d] == t.rows[d] &&
      ProcessAll(cfg, t, replies[d := reply], worker) ==
        Table(done.rows[d := ProcessRow(cfg, done.rows[d], reply, worker)])
  {
    var done := ProcessAll(cfg, t, replies, worker);
    assert ProcessAll(cfg, t, replies[d := reply], worker).rows ==
      done.rows[d := ProcessRow(cfg, done.rows[d], reply, worker)];
  }

  /** Attempt numbers stay gapless, so recording an attempt never hits the unique constraint (see `Taken`). */
  lemma BatchKeepsAccounted(cfg: Settings, t: Table, b: Batch)
    requires Accounted(t)
    ensures Accounted(RunBatch(cfg, t, b))
    ensures forall d :: d in t.rows ==> !Taken(RunBatch(cfg, t, b).rows[d])
  {
    var after := RunBatch(cfg, t, b).rows;
    forall d | d in t.rows ensures RowAccounted(after[d]) && !Taken(after[d]) {
      assert RowAccounted(t.rows[d]);
      assert after[d].attemptCount + 1 !in after[d].attempts;
    }
  }

  // ---------------------------------------------------------------------------
  // The worker's session
  // ---------------------------------------------------------------------------

  type Duration = x: real | 0.0 <= x

  /** What the outside world does to the i-th post of a batch. */
  datatype Env = Env(outcome: Outcome, duration: Duration, draw: Draw)

  predicate IsEarliest(rows: map<Id, Delivery>, todo: set<Id>, d: Id)
    requires todo <= rows.Keys && d in todo
  {
    forall e :: e in todo ==> rows[d].nextAttemptAt <= rows[e].nextAttemptAt
  }

  lemma {:induction false} EarliestExists(rows: map<Id, Delivery>, todo: set<Id>)
    requires todo != {} && todo <= rows.Keys
    ensures exists d :: d in todo && IsEarliest(rows, todo, d)
    decreases |todo|
  {
    var x :| x in todo;
    var rest := todo - {x};
    if rest == {} {
      assert todo == {x} && IsEarliest(rows, todo, x);
    } else {
      EarliestExists(rows, rest);
      var m :| m in rest && IsEarliest(rows, rest, m);
      var d := if rows[x].nextAttemptAt <= rows[m].nextAttemptAt then x else m;
      forall e | e in todo ensures rows[d].nextAttemptAt <= rows[e].nextAttemptAt {
        assert e == x || e in rest;
      }
      assert IsEarliest(rows, todo, d);
    }
  }

  /** Half-way through the claim query: `ids` are the earliest due rows, `todo` the other due rows. */
  ghost predicate Selecting(rows: map<Id, Delivery>, now: Time, ids: seq<Id>, todo: set<Id>) {
    && Distinct(ids)
    && (forall d :: d in todo <==> d in rows && IsDue(rows[d], now) && d !in ids)
    && (forall d :: d in ids ==> d in rows && IsDue(rows[d], now))
    && (forall i, j :: 0 <= i < j < |ids| ==> rows[ids[i]].nextAttemptAt <= rows[ids[j]].nextAttemptAt)
    && (forall i, d :: 0 <= i < |ids| && d in todo ==> rows[ids[i]].nextAttemptAt <= rows[d].nextAttemptAt)
  }

  lemma SelectingStep(rows: map<Id, Delivery>, now: Time, ids: seq<Id>, todo: set<Id>, first: Id)
    requires Selecting(rows, now, ids, todo) && first in todo && todo <= rows.Keys && IsEarliest(rows, todo, first)
    ensures Selecting(rows, now, ids + [first], todo - {first})
  {
  }

  lemma SelectingEnd(t: Table, now: Time, limit: nat, ids: seq<Id>, todo: set<Id>)
    requires Selecting(t.rows, now, ids, todo) && |ids| <= limit && (todo == {} || |ids| == limit)
    ensures ClaimAnswer(t, now, limit, {}, ids)
  {
    forall d | d in t.rows && IsDue(t.rows[d], now) && d !in ids ensures d in todo {
    }
  }

  /** The endpoints of the deliveries `ids`. */
  function Targets(t: Table, ids: seq<Id>): (r: seq<EndpointId>)
    requires forall d :: d in ids ==> d in t.rows
    ensures |r| == |ids| && forall i :: 0 <= i < |ids| ==> r[i] == t.rows[ids[i]].endpointId
  {
    if ids == [] then [] else [t.rows[ids[0]].endpointId] + Targets(t, ids[1..])
  }

  lemma ClaimKeepsTargets(before: Table, recovered: Table, claimed: Table, name: string, recoveredAt: Time,
                          until: Time, ids: seq<Id>)
    requires recovered == Recover(before, recoveredAt) && (forall d :: d in ids ==> d in recovered.rows)
    requires claimed == Claim(recovered, ids, until, name)
    ensures claimed.rows.Keys == before.rows.Keys && (forall d :: d in ids ==> d in before.rows)
    ensures Targets(claimed, ids) == Targets(before, ids)
  {
    assert claimed.rows.Keys == recovered.rows.Keys == before.rows.Keys;
    forall i | 0 <= i < |ids| ensures Targets(claimed, ids)[i] == Targets(before, ids)[i] {
      assert ids[i] in ids;
    }
  }

  lemma ComposeClaim(cfg: Settings, before: Table, recovered: Table, claimed: Table,
                     name: string, recoveredAt: Time, claimedAt: Time, ids: seq<Id>)
    requires recovered == Recover(before, recoveredAt) && (forall d :: d in ids ==> d in recovered.rows)
    requires claimed == Claim(recovered, ids, claimedAt + cfg.lease, name)
    ensures claimed == AfterClaim(cfg, before, name, recoveredAt, claimedAt, ids)
    ensures claimed.rows.Keys == before.rows.Keys && (forall d :: d in ids ==> d in before.rows)
    ensures Targets(claimed, ids) == Targets(before, ids)
  {
    ClaimKeepsTargets(before, recovered, claimed, name, recoveredAt, claimedAt + cfg.lease, ids);
  }

  /** Recovering, claiming and posting one after another make up the batch. */
  lemma ComposeBatch(cfg: Settings, before: Table, claimed: Table, after: Table, b: Batch)
    requires claimed == AfterClaim(cfg, before, b.name, b.recoveredAt, b.claimedAt, b.ids)
    requires after == ProcessAll(cfg, claimed, b.replies, b.name)
    ensures after == RunBatch(cfg, before, b)
    ensures Accounted(before) ==> Accounted(after) && forall d :: d in after.rows ==> !Taken(after.rows[d])
  {
    if Accounted(before) {
      BatchKeepsAccounted(cfg, before, b);
    }
  }

  /** Exactly the first `k` deliveries have a reply, each from its own post. */
  ghost predicate Replied(ids: seq<Id>, k: nat, env: seq<Env>, from: Time, replies: map<Id, Reply>)
    requires k <= |ids| <= |env|
  {
    && replies.Keys == First(ids, k)
    && forall i :: 0 <= i < k ==>
          && ids[i] in replies
          && replies[ids[i]].outcome == env[i].outcome && replies[ids[i]].draw == env[i].draw
          && from <= replies[ids[i]].startedAt <= replies[ids[i]].finishedAt
  }

  /** The posts ran one after another; two to the same rate-limited endpoint started at least 1/rate apart. */
  ghost predicate Ordered(targets: seq<EndpointId>, ids: seq<Id>, k: nat, pauses: map<EndpointId, Duration>,
                          replies: map<Id, Reply>)
    requires k <= |ids| == |targets| && forall i :: 0 <= i < k ==> ids[i] in replies
  {
    forall i, j :: 0 <= i < j < k ==>
      && replies[ids[i]].finishedAt <= replies[ids[j]].startedAt
      && (targets[i] == targets[j] && targets[i] in pauses ==>
            replies[ids[i]].startedAt + pauses[targets[i]] <= replies[ids[j]].startedAt)
  }

  /** When the loop comes to delivery `i`: at the start, or when the post before it has finished. */
  function ReadyAt(ids: seq<Id>, i: nat, from: Time, replies: map<Id, Reply>): Time
    requires i <= |ids| && (i > 0 ==> ids[i - 1] in replies)
  {
    if i == 0 then from else replies[ids[i - 1]].finishedAt
  }

  /** The pause before send `i`: that of its endpoint, if it has one and was sent to before in this batch. */
  function PauseBefore(targets: seq<EndpointId>, i: nat, pauses: map<EndpointId, Duration>): Duration
    requires i < |targets|
  {
    if targets[i] in First(targets, i) && targets[i] in pauses then pauses[targets[i]] else 0.0
  }

  /** Nothing but the posts before it and its own pause delays send `i`. */
  predicate OnTimeAt(targets: seq<EndpointId>, ids: seq<Id>, i: nat, pauses: map<EndpointId, Duration>,
                     env: seq<Env>, from: Time, replies: map<Id, Reply>)
  {
    && i < |ids| == |targets| && i < |env| && ids[i] in replies && (i > 0 ==> ids[i - 1] in replies)
    && replies[ids[i]].startedAt == ReadyAt(ids, i, from, replies) + PauseBefore(targets, i, pauses)
    && replies[ids[i]].finishedAt == replies[ids[i]].startedAt + env[i].duration
  }

  ghost predicate OnTime(targets: seq<EndpointId>, ids: seq<Id>, k: nat, pauses: map<EndpointId, Duration>,
                         env: seq<Env>, from: Time, replies: map<Id, Reply>)
  {
    forall i: nat :: i < k ==> OnTimeAt(targets, ids, i, pauses, env, from, replies)
  }

  ghost predicate Sent(targets: seq<EndpointId>, ids: seq<Id>, k: nat, pauses: map<EndpointId, Duration>,
                       env: seq<Env>, from: Time, replies: map<Id, Reply>)
    requires k <= |ids| == |targets| && |ids| <= |env|
  {
    && Replied(ids, k, env, from, replies) && Ordered(targets, ids, k, pauses, replies)
    && OnTime(targets, ids, k, pauses, env, from, replies)
  }

  ghost predicate SentBy(ids: seq<Id>, k: nat, replies: map<Id, Reply>, from: Time, clock: Time)
    requires k <= |ids|
  {
    && from <= clock && (forall i :: 0 <= i < k && ids[i] in replies ==> replies[ids[i]].finishedAt <= clock)
    && (k > 0 ==> ids[k - 1] in replies) && clock == ReadyAt(ids, k, from, replies)
  }

  /** Half-way through the batch loop: the first `k` deliveries have been posted. */
  ghost predicate Posting(cfg: Settings, claimed: Table, table: Table, targets: seq<EndpointId>, ids: seq<Id>, k: nat,
                          pauses: map<EndpointId, Duration>, env: seq<Env>, from: Time, name: string,
                          replies: map<Id, Reply>, clock: Time, seen: set<EndpointId>, sleeps: nat)
    requires k <= |ids| == |targets| && |ids| <= |env|
  {
    && table == ProcessAll(cfg, claimed, replies, name)
    && Sent(targets, ids, k, pauses, env, from, replies) && SentBy(ids, k, replies, from, clock)
    && seen == First(targets, k) && sleeps + |seen| == k
  }

  lemma NothingSent(cfg: Settings, t: Table, targets: seq<EndpointId>, ids: seq<Id>, pauses: map<EndpointId, Duration>,
                    env: seq<Env>, from: Time, worker: string)
    requires |ids| == |targets| && |ids| <= |env|
    ensures ProcessAll(cfg, t, map[], worker) == t
    ensures Sent(targets, ids, 0, pauses, env, from, map[]) && SentBy(ids, 0, map[], from, from)
  {
    assert ProcessAll(cfg, t, map[], worker).rows == t.rows;
  }

  lemma OrderedStep(targets: seq<EndpointId>, ids: seq<Id>, k: nat, pauses: map<EndpointId, Duration>,
                    clock: Time, replies: map<Id, Reply>, reply: Reply)
    requires k < |ids| == |targets| && Distinct(ids) && forall i :: 0 <= i < k ==> ids[i] in replies
    requires Ordered(targets, ids, k, pauses, replies) && clock <= reply.startedAt
    requires forall i :: 0 <= i < k ==> replies[ids[i]].startedAt <= replies[ids[i]].finishedAt <= clock
    requires targets[k] in pauses ==>
               reply.startedAt == clock + pauses[targets[k]] || forall i :: 0 <= i < k ==> targets[i] != targets[k]
    ensures Ordered(targets, ids, k + 1, pauses, replies[ids[k] := reply])
  {
  }

  lemma OnTimeStill(targets: seq<EndpointId>, ids: seq<Id>, i: nat, pauses: map<EndpointId, Duration>,
                    env: seq<Env>, from: Time, replies: map<Id, Reply>, k: nat, reply: Reply)
    requires OnTimeAt(targets, ids, i, pauses, env, from, replies) && i < k < |ids| && Distinct(ids)
    ensures OnTimeAt(targets, ids, i, pauses, env, from, replies[ids[k] := reply])
  {
    assert ids[i] != ids[k] && (i > 0 ==> ids[i - 1] != ids[k]);
  }

  lemma OnTimeStep(targets: seq<EndpointId>, ids: seq<Id>, k: nat, pauses: map<EndpointId, Duration>,
                   env: seq<Env>, from: Time, replies: map<Id, Reply>, reply: Reply)
    requires k < |ids| == |targets| && |ids| <= |env| && Distinct(ids) && (k > 0 ==> ids[k - 1] in replies)
    requires OnTime(targets, ids, k, pauses, env, from, replies)
    requires reply.startedAt == ReadyAt(ids, k, from, replies) + PauseBefore(targets, k, pauses)
    requires reply.finishedAt == reply.startedAt + env[k].duration
    ensures OnTime(targets, ids, k + 1, pauses, env, from, replies[ids[k] := reply])
  {
    var replies' := replies[ids[k] := reply];
    assert OnTimeAt(targets, ids, k, pauses, env, from, replies') by {
      assert k > 0 ==> ids[k - 1] != ids[k];
    }
    forall i: nat | i < k ensures OnTimeAt(targets, ids, i, pauses, env, from, replies') {
      OnTimeStill(targets, ids, i, pauses, env, from, replies, k, reply);
    }
  }

  /** A repeated endpoint's send starts its pause after every earlier post. */
  lemma PauseSpaces(targets: seq<EndpointId>, k: nat, pauses: map<EndpointId, Duration>, clock: Time, start: Time)
    requires k < |targets| && start == clock + PauseBefore(targets, k, pauses)
    ensures targets[k] in pauses ==>
              start == clock + pauses[targets[k]] || forall i :: 0 <= i < k ==> targets[i] != targets[k]
  {
  }

  lemma SentStep(targets: seq<EndpointId>, ids: seq<Id>, k: nat, pauses: map<EndpointId, Duration>,
                 env: seq<Env>, from: Time, clock: Time, replies: map<Id, Reply>, reply: Reply)
    requires k < |ids| == |targets| && |ids| <= |env| && Distinct(ids)
    requires Sent(targets, ids, k, pauses, env, from, replies) && SentBy(ids, k, replies, from, clock)
    requires reply.outcome == env[k].outcome && reply.draw == env[k].draw
    requires clock <= reply.startedAt <= reply.finishedAt
    requires reply.startedAt == clock + PauseBefore(targets, k, pauses)
    requires reply.finishedAt == reply.startedAt + env[k].duration
    ensures ids[k] !in replies
    ensures Sent(targets, ids, k + 1, pauses, env, from, replies[ids[k] := reply])
    ensures SentBy(ids, k + 1, replies[ids[k] := reply], from, reply.finishedAt)
  {
    FirstStep(ids, k);
    PauseSpaces(targets, k, pauses, clock, reply.startedAt);
    OrderedStep(targets, ids, k, pauses, clock, replies, reply);
    OnTimeStep(targets, ids, k, pauses, env, from, replies, reply);
  }

  /** `sleep_for_rate_limit`: the clock after the pause, if the endpoint has a limit. */
  method SleepForRateLimit(clock: Time, pauses: map<EndpointId, Duration>, endpoint: EndpointId) returns (after: Time)
    ensures after == if endpoint in pauses then clock + pauses[endpoint] else clock
    ensures clock <= after
  {
    after := clock;
    if endpoint in pauses {
      after := clock + pauses[endpoint];
    }
  }

  /** The head of the loop body of `run_once`: pause before a send to an endpoint already seen in this batch. */
  method Pace(targets: seq<EndpointId>, k: nat, seen: set<EndpointId>, pauses: map<EndpointId, Duration>, clock: Time)
    returns (start: Time, slept: nat, seenNow: set<EndpointId>)
    requires k < |targets| && seen == First(targets, k)
    ensures start == clock + PauseBefore(targets, k, pauses) && slept == if targets[k] in seen then 1 else 0
    ensures seenNow == First(targets, k + 1) && slept + |seenNow| == 1 + |seen|
  {
    FirstStep(targets, k);
    if targets[k] in seen {
      start := SleepForRateLimit(clock, pauses, targets[k]);
      slept, seenNow := 1, seen;
    } else {
      start, slept, seenNow := clock, 0, seen + {targets[k]};
    }
  }

  class Session {
    const cfg: Settings
    var table: Table

    constructor (cfg: Settings, table: Table)
      ensures this.cfg == cfg && this.table == table
    {
      this.cfg := cfg;
      this.table := table;
    }

    /** `_recover_expired_leases`: one bulk UPDATE. */
    method RecoverExpiredLeases(now: Time)
      modifies this
      ensures table == Recover(old(table), now) && table.rows.Keys == old(table).rows.Keys
      ensures forall d :: d in old(table).rows ==>
                var row := old(table).rows[d];
                table.rows[d] == if row.status == InFlight && row.leasedUntil.Some? && row.leasedUntil.value < now
                                 then row.(status := Pending, leasedUntil := None) else row
    {
      table := Table(map d | d in table.rows :: RecoverRow(table.rows[d], now));
    }

    /** The SELECT ... ORDER BY next_attempt_at LIMIT of `claim_due_deliveries`, with no row locked elsewhere. */
    method SelectDue(now: Time, limit: nat) returns (ids: seq<Id>)
      ensures ClaimAnswer(table, now, limit, {}, ids)
      ensures forall d :: d in ids ==>
                d in table.rows && table.rows[d].status == Pending && table.rows[d].nextAttemptAt <= now
      ensures forall d :: d in table.rows && table.rows[d].status == Pending && table.rows[d].nextAttemptAt <= now ==>
                d in ids || |ids| == limit
    {
      var rows := table.rows;
      var todo := set d | d in rows && IsDue(rows[d], now);
      ids := [];
      assert Selecting(rows, now, ids, todo);
      while todo != {} && |ids| < limit
        invariant |ids| <= limit && Selecting(rows, now, ids, todo)
        decreases |todo|
      {
        EarliestExists(rows, todo);
        var first :| first in todo && IsEarliest(rows, todo, first);
        SelectingStep(rows, now, ids, todo, first);
        ids := ids + [first];
        todo := todo - {first};
      }
      SelectingEnd(table, now, limit, ids, todo);
    }

    /** `claim_due_deliveries`. */
    method ClaimDueDeliveries(now: Time, limit: nat, name: string) returns (ids: seq<Id>)
      modifies this
      ensures ClaimAnswer(old(table), now, limit, {}, ids)
      ensures table == Claim(old(table), ids, now + cfg.lease, name) && table.rows.Keys == old(table).rows.Keys
      ensures forall d :: d in table.rows ==>
                var row := old(table).rows[d];
                table.rows[d] ==
                if d in ids
                then row.(status := InFlight, leasedUntil := Some(now + cfg.lease), claimedBy := Some(name))
                else row
    {
      ids := SelectDue(now, limit);
      ghost var before := table;
      var k := 0;
      while k < |ids|
        invariant 0 <= k <= |ids|
        invariant table == Claim(before, ids[..k], now + cfg.lease, name)
      {
        assert ids[k] !in ids[..k] && ids[..k + 1] == ids[..k] + [ids[k]];
        table := Table(table.rows[ids[k] := ClaimRow(table.rows[ids[k]], now + cfg.lease, name)]);
        assert table.rows == Claim(before, ids[..k + 1], now + cfg.lease, name).rows;
        k := k + 1;
      }
      assert ids[..k] == ids;
    }

    /** `process_delivery`; `ok` is false when the flush hits the unique constraint. */
    method ProcessDelivery(id: Id, reply: Reply, worker: string) returns (ok: bool)
      requires id in table.rows
      modifies this
      ensures ok == !Taken(old(table).rows[id])
      ensures table == if ok then Table(old(table).rows[id := ProcessRow(cfg, old(table).rows[id], reply, worker)])
                       else old(table)
      ensures ok ==> RecordsReply(cfg, old(table).rows[id], reply, worker, table.rows[id])
    {
      ProcessRowRecords(cfg, table.rows[id], reply, worker);
      var row := table.rows[id];
      var n := row.attemptCount + 1;
      if n in row.attempts {
        return false;
      }
      row := row.(attempts := row.attempts[n := Attempt(reply.outcome, reply.startedAt, reply.finishedAt, worker)]);
      row := row.(attemptCount := n);
      if reply.outcome.Blocked? {
        row := row.(status := DeadLettered);
      } else if Accepted(reply.outcome) {
        row := row.(status := Succeeded);
      } else if n >= cfg.maxAttempts {
        row := row.(status := DeadLettered);
      } else {
        row := row.(status := Pending);
        row := row.(nextAttemptAt := Backoff.NextAttemptAt(n, cfg.base, cfg.cap, reply.finishedAt, reply.draw));
        row := row.(leasedUntil := None);
      }
      table := Table(table.rows[id := row]);
      return true;
    }

    /** The loop body: pause if the endpoint was seen before, post, record. */
    method PostNext(ghost claimed: Table, targets: seq<EndpointId>, ids: seq<Id>, k: nat,
                    pauses: map<EndpointId, Duration>, env: seq<Env>, ghost from: Time, name: string,
                    replies: map<Id, Reply>, clock: Time, seen: set<EndpointId>, sleeps: nat)
      returns (ok: bool, replies': map<Id, Reply>, clock': Time, seen': set<EndpointId>, sleeps': nat)
      requires k < |ids| == |targets| && |ids| <= |env| && Distinct(ids) && ids[k] in claimed.rows
      requires Posting(cfg, claimed, table, targets, ids, k, pauses, env, from, name, replies, clock, seen, sleeps)
      modifies this
      ensures ok ==>
                Posting(cfg, claimed, table, targets, ids, k + 1, pauses, env, from, name,
                        replies', clock', seen', sleeps')
      ensures !ok ==> table == old(table) && replies' == replies && Taken(table.rows[ids[k]])
      ensures ids[k] in table.rows
    {
      var start, slept;
      start, slept, seen' := Pace(targets, k, seen, pauses, clock);
      var reply := Reply(env[k].outcome, start, start + env[k].duration, env[k].draw);
      SentStep(targets, ids, k, pauses, env, from, clock, replies, reply);
      ProcessOneMore(cfg, claimed, ids[k], reply, replies, name);
      ok := ProcessDelivery(ids[k], reply, name);
      sleeps' := sleeps + slept;
      replies' := if ok then replies[ids[k] := reply] else replies;
      clock' := reply.finishedAt;
    }

    /**
     * The loop of `run_once` over the claimed deliveries. Sends are throttled per endpoint: `pauses`
     * holds 1 / rate_limit_rps of the limited endpoints, `env` is what happens to each post, `sleeps`
     * counts the calls of `sleep_for_rate_limit`. It stops early only when an insert hits the unique constraint.
     */
    method PostAll(ids: seq<Id>, from: Time, name: string, pauses: map<EndpointId, Duration>, env: seq<Env>)
      returns (ok: bool, replies: map<Id, Reply>, sleeps: nat)
      requires Distinct(ids) && (forall d :: d in ids ==> d in table.rows) && |ids| <= |env|
      modifies this
      ensures table == ProcessAll(cfg, old(table), replies, name)
      ensures ok ==> Sent(Targets(old(table), ids), ids, |ids|, pauses, env, from, replies)
      ensures ok ==> sleeps == |ids| - |Elems(Targets(old(table), ids))|
      ensures !ok ==> exists d :: d in table.rows && Taken(table.rows[d])
    {
      ghost var claimed := table;
      var targets := Targets(table, ids);
      var seen: set<EndpointId> := {};
      var clock := from;
      var k := 0;
      replies, sleeps, ok := map[], 0, true;
      NothingSent(cfg, claimed, targets, ids, pauses, env, from, name);
      while k < |ids|
        invariant k <= |ids| && ok
        invariant Posting(cfg, claimed, table, targets, ids, k, pauses, env, from, name, replies, clock, seen, sleeps)
      {
        ok, replies, clock, seen, sleeps :=
          PostNext(claimed, targets, ids, k, pauses, env, from, name, replies, clock, seen, sleeps);
        if !ok {
          return;
        }
        k := k + 1;
      }
    }

    /** `run_once`. */
    method RunOnce(recoverAt: Time, claimAt: Time, name: string, pauses: map<EndpointId, Duration>, env: seq<Env>)
      returns (ok: bool, batch: Batch, sleeps: nat)
      requires recoverAt <= claimAt && |env| == cfg.batchSize
      modifies this
      // the batch is a proper answer of the claim query on the recovered table
      ensures batch.name == name && batch.recoveredAt == recoverAt && batch.claimedAt == claimAt
      ensures ClaimAnswer(Recover(old(table), recoverAt), claimAt, cfg.batchSize, {}, batch.ids)
      // the table ends as the batch says
      ensures table == RunBatch(cfg, old(table), batch)
      // only a unique-constraint conflict cuts the loop short, and gapless attempt numbers rule it out
      ensures !ok ==> exists d :: d in table.rows && Taken(table.rows[d])
      ensures Accounted(old(table)) ==> ok && Accounted(table)
      // each claimed delivery is answered by its own post, posts run in order, limited sends are spaced,
      // and `sleep_for_rate_limit` is called once per repeated endpoint
      ensures ok ==> Sent(Targets(old(table), batch.ids), batch.ids, |batch.ids|, pauses, env, claimAt, batch.replies)
      ensures ok ==> sleeps == |batch.ids| - |Elems(Targets(old(table), batch.ids))|
    {
      ghost var before := table;
      RecoverExpiredLeases(recoverAt);
      ghost var recovered := table;
      var ids := ClaimDueDeliveries(claimAt, cfg.batchSize, name);
      ghost var claimed := table;
      ComposeClaim(cfg, before, recovered, claimed, name, recoverAt, claimAt, ids);
      var replies;
      ok, replies, sleeps := PostAll(ids, claimAt, name, pauses, env);
      batch := Batch(name, recoverAt, claimAt, ids, replies);
      ComposeBatch(cfg, before, claimed, table, batch);
    }
  }
}
