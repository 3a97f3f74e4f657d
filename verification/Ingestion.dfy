/**
 * Idempotent ingestion (app/services/event_ingestion.py) under concurrency: lookup, fan-out query,
 * savepoint, unique-constraint loss, savepoint rollback, re-read.
 *
 * A session holds objects that are added but not flushed (`pending`) and rows it has flushed
 * (`written`), which other transactions see only after its commit. Idempotency keys stand for
 * (project, key) pairs, hashes for the hash of the canonical body.
 */
module Ingestion {
  import opened Prelude

  type RequestId = nat
  type EventId = nat
  type EndpointId = nat
  type Key = nat
  type Hash = nat

  /** One POST /events. */
  datatype Request = Request(key: Option<Key>, hash: Hash)

  datatype Record = Record(eventId: EventId, queued: nat, hash: Hash)

  datatype DeliveryRow = DeliveryRow(eventId: EventId, endpoint: EndpointId)

  /** Events with their idempotency key, deliveries, and idempotency records, unique per key. */
  datatype Rows = Rows(events: map<EventId, Option<Key>>, deliveries: set<DeliveryRow>, records: map<Key, Record>)

  datatype Reply = Created(eventId: EventId, queued: nat) | Conflict

  /**
   * Where a request stands. `Answered` holds the reply it gives once its transaction has ended;
   * `Lost` is the moment after the unique constraint fired and the savepoint was rolled back.
   */
  datatype Phase = Started | NotFound | Ready | InSavepoint | Lost | Answered(reply: Reply)

  datatype Session = Session(req: Request, phase: Phase, eventId: EventId, targets: set<EndpointId>,
                             pending: Rows, written: Rows)

  /** Whether the event and its deliveries are added to the session inside the savepoint, or before it. */
  datatype Order = AddInside | AddBefore

  /** A finished request: what it asked, what it would create, and what it was told. */
  datatype Done = Done(req: Request, eventId: EventId, targets: set<EndpointId>, reply: Reply)

  /** Committed rows, open sessions, event ids drawn so far, finished requests in order. */
  datatype Sys = Sys(db: Rows, sessions: map<RequestId, Session>, used: set<EventId>, log: seq<Done>)

  datatype Label =
    | Arrive(r: RequestId, req: Request)
    | Lookup(r: RequestId)
    | FanOut(r: RequestId, eventId: EventId, targets: set<EndpointId>)
    | BeginNested(r: RequestId)
    | Flush(r: RequestId)
    | ReRead(r: RequestId)
    | Finish(r: RequestId)
    | Abort(r: RequestId)

  const NONE := Rows(map[], {}, map[])

  function Merge(a: Rows, b: Rows): Rows {
    Rows(a.events + b.events, a.deliveries + b.deliveries, a.records + b.records)
  }

  function EventAndDeliveries(req: Request, eventId: EventId, targets: set<EndpointId>): Rows {
    Rows(map[eventId := req.key], set e | e in targets :: DeliveryRow(eventId, e), map[])
  }

  function RecordOf(req: Request, eventId: EventId, targets: set<EndpointId>): Rows {
    if req.key == None then NONE
    else Rows(map[], {}, map[req.key.value := Record(eventId, |targets|, req.hash)])
  }

  function Objects(req: Request, eventId: EventId, targets: set<EndpointId>): Rows {
    Merge(EventAndDeliveries(req, eventId, targets), RecordOf(req, eventId, targets))
  }

  /** The reply for an existing record: the cached response, or 409 when the body differs. */
  function ReplyFrom(rec: Record, req: Request): Reply {
    if rec.hash != req.hash then Conflict else Created(rec.eventId, rec.queued)
  }

  /** Another open transaction has inserted the same key: the insert waits for it to end. */
  predicate KeyHeldElsewhere(s: Sys, r: RequestId) {
    r in s.sessions && s.sessions[r].req.key.Some? &&
    exists q :: q in s.sessions && q != r && s.sessions[r].req.key.value in s.sessions[q].written.records
  }

  predicate Enabled(s: Sys, l: Label) {
    match l
    case Arrive(r, _) => r !in s.sessions
    case Lookup(r) => r in s.sessions && s.sessions[r].phase == Started
    case FanOut(r, id, _) => r in s.sessions && s.sessions[r].phase == NotFound && id !in s.used
    case BeginNested(r) => r in s.sessions && s.sessions[r].phase == Ready && s.sessions[r].req.key.Some?
    case Flush(r) =>
      && r in s.sessions && !KeyHeldElsewhere(s, r)
      && (s.sessions[r].phase == InSavepoint || (s.sessions[r].phase == Ready && s.sessions[r].req.key == None))
    case ReRead(r) =>
      // scalar_one() raises without a row
      && r in s.sessions && s.sessions[r].phase == Lost && s.sessions[r].req.key.Some?
      && s.sessions[r].req.key.value in s.db.records
    case Finish(r) => r in s.sessions && s.sessions[r].phase.Answered?
    case Abort(r) => r in s.sessions
  }

  /** The first SELECT: a hit answers at once, a miss (or no key) goes on to the fan-out. */
  function LookedUp(db: Rows, x: Session): Session {
    if x.req.key.Some? && x.req.key.value in db.records
    then x.(phase := Answered(ReplyFrom(db.records[x.req.key.value], x.req)))
    else x.(phase := NotFound)
  }

  function FannedOut(order: Order, x: Session, id: EventId, targets: set<EndpointId>): Session {
    x.(phase := Ready, eventId := id, targets := targets,
       pending := if order == AddBefore && x.req.key.Some? then EventAndDeliveries(x.req, id, targets) else NONE)
  }

  /** `begin_nested()` flushes what is already pending to the outer transaction, then opens the savepoint. */
  function Nested(order: Order, x: Session): Session {
    x.(phase := InSavepoint, written := Merge(x.written, x.pending),
       pending := if order == AddBefore then RecordOf(x.req, x.eventId, x.targets)
                  else Objects(x.req, x.eventId, x.targets))
  }

  /**
   * The flush of the inserts. With a committed record for the key the constraint fires and the
   * savepoint is rolled back; otherwise the rows are written (without a key there is no savepoint).
   */
  function Flushed(db: Rows, x: Session): Session {
    if x.req.key.Some? && x.req.key.value in db.records then
      x.(phase := Lost, pending := NONE)
    else
      var rows := if x.req.key == None then Objects(x.req, x.eventId, x.targets) else x.pending;
      x.(phase := Answered(Created(x.eventId, |x.targets|)), pending := NONE, written := Merge(x.written, rows))
  }

  /** A 409 is raised and rolls the transaction back; any other reply is given after the commit. */
  function Committed(db: Rows, x: Session): Rows
    requires x.phase.Answered?
  {
    if x.phase.reply == Conflict then db else Merge(db, x.written)
  }

  function Exec(order: Order, s: Sys, l: Label): Sys
    requires Enabled(s, l)
  {
    match l
    case Arrive(r, req) => s.(sessions := s.sessions[r := Session(req, Started, 0, {}, NONE, NONE)])
    case Lookup(r) => s.(sessions := s.sessions[r := LookedUp(s.db, s.sessions[r])])
    case FanOut(r, id, targets) =>
      s.(sessions := s.sessions[r := FannedOut(order, s.sessions[r], id, targets)], used := s.used + {id})
    case BeginNested(r) => s.(sessions := s.sessions[r := Nested(order, s.sessions[r])])
    case Flush(r) => s.(sessions := s.sessions[r := Flushed(s.db, s.sessions[r])])
    case ReRead(r) =>
      var x := s.sessions[r];
      s.(sessions := s.sessions[r := x.(phase := Answered(ReplyFrom(s.db.records[x.req.key.value], x.req)))])
    case Finish(r) =>
      var x := s.sessions[r];
      s.(db := Committed(s.db, x), sessions := s.sessions - {r},
         log := s.log + [Done(x.req, x.eventId, x.targets, x.phase.reply)])
    case Abort(r) => s.(sessions := s.sessions - {r})
  }

  ghost predicate Run(order: Order, states: seq<Sys>, labels: seq<Label>) {
    && |states| == |labels| + 1
    && states[0] == Sys(NONE, map[], {}, [])
    && forall i :: 0 <= i < |labels| ==>
      Enabled(states[i], labels[i]) && states[i + 1] == Exec(order, states[i], labels[i])
  }

  // ---------------------------------------------------------------------------
  // The sequential service
  // ---------------------------------------------------------------------------

  /** One request served alone: its reply, and the rows after it. */
  function Serve(db: Rows, req: Request, id: EventId, targets: set<EndpointId>): (Rows, Reply) {
    if req.key.Some? && req.key.value in db.records then (db, ReplyFrom(db.records[req.key.value], req))
    else (Merge(db, Objects(req, id, targets)), Created(id, |targets|))
  }

  lemma NothingMerged(db: Rows)
    ensures Merge(db, NONE) == db
  {
    assert db.events + map[] == db.events && db.deliveries + {} == db.deliveries && db.records + map[] == db.records;
  }

  /** The rows of a new event: itself, one delivery per target, and a record if it has a key. */
  ghost predicate Inserted(before: Rows, after: Rows, req: Request, id: EventId, targets: set<EndpointId>) {
    && after.events == before.events[id := req.key]
    && (forall d: DeliveryRow ::
          d in after.deliveries <==> d in before.deliveries || (d.eventId == id && d.endpoint in targets))
    && after.records == match req.key
                        case None => before.records
                        case Some(k) => before.records[k := Record(id, |targets|, req.hash)]
  }

  lemma ObjectsInserted(db: Rows, req: Request, id: EventId, targets: set<EndpointId>)
    ensures Inserted(db, Merge(db, Objects(req, id, targets)), req, id, targets)
  {
    var after := Merge(db, Objects(req, id, targets));
    forall d: DeliveryRow | d.eventId == id && d.endpoint in targets ensures d in after.deliveries {
      assert DeliveryRow(id, d.endpoint) == d;
    }
    assert after.events == db.events[id := req.key];
  }

  /** `ingest_event` followed by the caller's commit, with no other request in between. */
  class Service {
    var rows: Rows
    var pending: Rows

    constructor ()
      ensures rows == NONE && pending == NONE
    {
      rows, pending := NONE, NONE;
    }

    /** Writes what has been added to the session. */
    method WritePending()
      modifies this
      ensures rows == Merge(old(rows), old(pending)) && pending == NONE
    {
      rows, pending := Merge(rows, pending), NONE;
    }

    method IngestEvent(req: Request, id: EventId, targets: set<EndpointId>) returns (reply: Reply)
      requires pending == NONE
      modifies this
      ensures (rows, reply) == Serve(old(rows), req, id, targets) && pending == NONE
      // a key that is known answers from its record and writes nothing
      ensures req.key.Some? && req.key.value in old(rows).records ==>
                var known := old(rows).records[req.key.value];
                && rows == old(rows)
                && reply == if known.hash == req.hash then Created(known.eventId, known.queued) else Conflict
      // otherwise, with or without a key, the event is there with one delivery for every target
      ensures !(req.key.Some? && req.key.value in old(rows).records) ==> Inserted(old(rows), rows, req, id, targets)
      ensures !(req.key.Some? && req.key.value in old(rows).records) ==> reply == Created(id, |targets|)
    {
      if req.key.Some? {
        if req.key.value in rows.records {
          var existing := rows.records[req.key.value];
          if existing.hash != req.hash {
            return Conflict;
          }
          return Created(existing.eventId, existing.queued);
        }
        NothingMerged(rows);
        WritePending();
        pending := EventAndDeliveries(req, id, targets);
        pending := Merge(pending, Rows(map[], {}, map[req.key.value := Record(id, |targets|, req.hash)]));
        WritePending();
        ObjectsInserted(old(rows), req, id, targets);
      } else {
        pending := EventAndDeliveries(req, id, targets);
        NothingMerged(pending);
        WritePending();
        ObjectsInserted(old(rows), req, id, targets);
      }
      reply := Created(id, |targets|);
    }
  }

  function Replay(log: seq<Done>): Rows {
    if log == [] then NONE
    else
      var d := log[|log| - 1];
      Serve(Replay(log[..|log| - 1]), d.req, d.eventId, d.targets).0
  }

  /** The request would be answered from an existing record. */
  predicate Hit(db: Rows, req: Request) {
    req.key.Some? && req.key.value in db.records
  }

  /** Every request was answered as if served alone, in order, and every new event has a new id. */
  ghost predicate Sequential(log: seq<Done>) {
    log == [] ||
    (var before, d := log[..|log| - 1], log[|log| - 1];
     && Sequential(before)
     && d.reply == Serve(Replay(before), d.req, d.eventId, d.targets).1
     && (!Hit(Replay(before), d.req) ==> d.eventId !in Replay(before).events))
  }

  lemma ReplaySnoc(log: seq<Done>, d: Done)
    ensures Replay(log + [d]) == Serve(Replay(log), d.req, d.eventId, d.targets).0
    ensures Sequential(log + [d]) == (Sequential(log) && d.reply == Serve(Replay(log), d.req, d.eventId, d.targets).1
                                      && (!Hit(Replay(log), d.req) ==> d.eventId !in Replay(log).events))
  {
    assert (log + [d])[..|log|] == log;
  }

  // ---------------------------------------------------------------------------
  // The invariant (objects added inside the savepoint)
  // ---------------------------------------------------------------------------

  /** The session has inserted its rows and waits to commit them. */
  predicate Winning(x: Session) {
    x.phase == Answered(Created(x.eventId, |x.targets|)) && x.written == Objects(x.req, x.eventId, x.targets)
  }

  /** The session answers from a committed record and has written nothing. */
  predicate Cached(db: Rows, x: Session) {
    && x.phase.Answered? && x.written == NONE && Hit(db, x.req)
    && x.phase.reply == ReplyFrom(db.records[x.req.key.value], x.req)
  }

  /** The session has drawn an event id that may still become a row. */
  predicate Holding(x: Session) {
    x.phase == Ready || x.phase == InSavepoint || Winning(x)
  }

  predicate SessionInv(db: Rows, x: Session) {
    match x.phase
    case Started => x.pending == NONE && x.written == NONE
    case NotFound => x.pending == NONE && x.written == NONE
    case Ready => x.pending == NONE && x.written == NONE
    case InSavepoint => x.req.key.Some? && x.pending == Objects(x.req, x.eventId, x.targets) && x.written == NONE
    case Lost => Hit(db, x.req) && x.pending == NONE && x.written == NONE
    case Answered(_) => x.pending == NONE && ((Winning(x) && !Hit(db, x.req)) || Cached(db, x))
  }

  predicate IdReserved(s: Sys, x: Session) {
    Holding(x) ==> x.eventId in s.used && x.eventId !in s.db.events
  }

  /** No two open sessions hold the same event id, or have inserted the same key. */
  predicate Apart(x: Session, y: Session) {
    && (Holding(x) && Holding(y) ==> x.eventId != y.eventId)
    && x.written.records.Keys !! y.written.records.Keys
  }

  ghost predicate Inv(s: Sys) {
    && s.db == Replay(s.log) && Sequential(s.log)
    && s.db.events.Keys <= s.used
    && (forall r :: r in s.sessions ==> SessionInv(s.db, s.sessions[r]) && IdReserved(s, s.sessions[r]))
    && (forall q, r :: q in s.sessions && r in s.sessions && q != r ==> Apart(s.sessions[q], s.sessions[r]))
  }

  /** One session moves on; the committed rows stay. */
  lemma SessionMoves(s: Sys, r: RequestId, x: Session, used: set<EventId>)
    requires Inv(s) && SessionInv(s.db, x) && s.used <= used
    requires IdReserved(s.(used := used), x)
    requires forall q :: q in s.sessions && q != r ==> Apart(s.sessions[q], x)
    ensures Inv(s.(sessions := s.sessions[r := x], used := used))
  {
  }

  lemma FlushedWinning(db: Rows, x: Session)
    requires SessionInv(db, x) && !Hit(db, x.req)
    requires x.phase == InSavepoint || (x.phase == Ready && x.req.key == None)
    ensures Winning(Flushed(db, x))
  {
    NothingMerged(Objects(x.req, x.eventId, x.targets));
    assert Flushed(db, x).written == Objects(x.req, x.eventId, x.targets);
  }

  lemma FlushApart(y: Session, db: Rows, x: Session)
    requires SessionInv(db, x) && Apart(y, x) && !Hit(db, x.req)
    requires x.phase == InSavepoint || (x.phase == Ready && x.req.key == None)
    requires x.req.key.Some? ==> x.req.key.value !in y.written.records
    ensures Apart(y, Flushed(db, x))
  {
    FlushedWinning(db, x);
  }

  lemma FlushWins(s: Sys, r: RequestId)
    requires Inv(s) && Enabled(s, Flush(r)) && !Hit(s.db, s.sessions[r].req)
    ensures Inv(Exec(AddInside, s, Flush(r)))
  {
    var x := s.sessions[r];
    forall q | q in s.sessions && q != r ensures Apart(s.sessions[q], Flushed(s.db, x)) {
      FlushApart(s.sessions[q], s.db, x);
    }
    FlushedWinning(s.db, x);
    SessionMoves(s, r, Flushed(s.db, x), s.used);
  }

  /** The only way a session comes to hold a record is that nobody else has it. */
  lemma FlushStep(s: Sys, r: RequestId)
    requires Inv(s) && Enabled(s, Flush(r))
    ensures Inv(Exec(AddInside, s, Flush(r)))
  {
    var x := s.sessions[r];
    if Hit(s.db, x.req) {
      SessionMoves(s, r, Flushed(s.db, x), s.used);
    } else {
      FlushWins(s, r);
    }
  }

  lemma CachedIsServed(log: seq<Done>, d: Done)
    requires Sequential(log) && Hit(Replay(log), d.req)
    requires d.reply == ReplyFrom(Replay(log).records[d.req.key.value], d.req)
    ensures Sequential(log + [d]) && Replay(log + [d]) == Replay(log)
  {
    ReplaySnoc(log, d);
  }

  lemma CachedFinishes(s: Sys, r: RequestId)
    requires Inv(s) && r in s.sessions && Cached(s.db, s.sessions[r])
    ensures Inv(Exec(AddInside, s, Finish(r)))
  {
    var x, s' := s.sessions[r], Exec(AddInside, s, Finish(r));
    var done := Done(x.req, x.eventId, x.targets, x.phase.reply);
    NothingMerged(s.db);
    CachedIsServed(s.log, done);
    assert s' == s.(sessions := s.sessions - {r}, log := s.log + [done]);
  }

  lemma OtherCommits(db: Rows, x: Session, y: Session)
    requires Winning(x) && !Hit(db, x.req) && SessionInv(db, y) && Apart(y, x)
    ensures SessionInv(Merge(db, Objects(x.req, x.eventId, x.targets)), y)
    ensures Holding(y) && y.eventId !in db.events ==>
              y.eventId !in Merge(db, Objects(x.req, x.eventId, x.targets)).events
  {
    if Winning(y) && y.req.key.Some? {
      assert y.req.key.value in y.written.records;
    }
  }

  lemma WinnerFinishes(s: Sys, r: RequestId)
    requires Inv(s) && r in s.sessions && Winning(s.sessions[r]) && !Hit(s.db, s.sessions[r].req)
    ensures Inv(Exec(AddInside, s, Finish(r)))
  {
    var x := s.sessions[r];
    var s' := Exec(AddInside, s, Finish(r));
    ReplaySnoc(s.log, Done(x.req, x.eventId, x.targets, x.phase.reply));
    assert s'.db == Merge(s.db, Objects(x.req, x.eventId, x.targets));
    forall q | q in s'.sessions ensures SessionInv(s'.db, s'.sessions[q]) && IdReserved(s', s'.sessions[q]) {
      assert Apart(s.sessions[q], x);
      OtherCommits(s.db, x, s.sessions[q]);
    }
  }

  /** Commits do not disturb the sessions that stay open: their cached records stay, their own key stays free. */
  lemma FinishStep(s: Sys, r: RequestId)
    requires Inv(s) && Enabled(s, Finish(r))
    ensures Inv(Exec(AddInside, s, Finish(r)))
  {
    if Cached(s.db, s.sessions[r]) {
      CachedFinishes(s, r);
    } else {
      WinnerFinishes(s, r);
    }
  }

  lemma ObjectsNotNone(req: Request, id: EventId, targets: set<EndpointId>)
    ensures Objects(req, id, targets) != NONE
  {
    assert id in Objects(req, id, targets).events;
  }

  /** Answering from a committed record, at the first lookup or at the re-read. */
  lemma AnswerStep(s: Sys, r: RequestId, x: Session)
    requires Inv(s) && r in s.sessions && Cached(s.db, x) && x.pending == NONE
    ensures Inv(s.(sessions := s.sessions[r := x]))
  {
    ObjectsNotNone(x.req, x.eventId, x.targets);
    SessionMoves(s, r, x, s.used);
  }

  lemma LookupStep(s: Sys, r: RequestId)
    requires Inv(s) && Enabled(s, Lookup(r))
    ensures Inv(Exec(AddInside, s, Lookup(r)))
  {
    var x := LookedUp(s.db, s.sessions[r]);
    if x.phase == NotFound {
      SessionMoves(s, r, x, s.used);
    } else {
      AnswerStep(s, r, x);
    }
  }

  lemma StepKeepsInv(s: Sys, l: Label)
    requires Inv(s) && Enabled(s, l)
    ensures Inv(Exec(AddInside, s, l))
  {
    match l
    case Arrive(r, req) => SessionMoves(s, r, Session(req, Started, 0, {}, NONE, NONE), s.used);
    case Lookup(r) => LookupStep(s, r);
    case FanOut(r, id, targets) =>
      SessionMoves(s, r, FannedOut(AddInside, s.sessions[r], id, targets), s.used + {id});
    case BeginNested(r) => SessionMoves(s, r, Nested(AddInside, s.sessions[r]), s.used);
    case Flush(r) => FlushStep(s, r);
    case ReRead(r) => AnswerStep(s, r, Exec(AddInside, s, l).sessions[r]);
    case Finish(r) => FinishStep(s, r);
    case Abort(r) =>
  }

  lemma {:induction false} RunKeepsInv(states: seq<Sys>, labels: seq<Label>, n: nat)
    requires Run(AddInside, states, labels) && n <= |labels|
    ensures Inv(states[n])
  {
    if n > 0 {
      RunKeepsInv(states, labels, n - 1);
      StepKeepsInv(states[n - 1], labels[n - 1]);
    } else {
      assert Inv(states[0]);
    }
  }

  // ---------------------------------------------------------------------------
  // Guarantees
  // ---------------------------------------------------------------------------

  /**
   * Linearizability: after any interleaving, including first inserters that abort, the committed rows
   * and all replies are those of the finished requests served one at a time, in the order they finished.
   */
  lemma Linearizable(states: seq<Sys>, labels: seq<Label>, n: nat)
    requires Run(AddInside, states, labels) && n <= |labels|
    ensures states[n].db == Replay(states[n].log) && Sequential(states[n].log)
  {
    RunKeepsInv(states, labels, n);
  }

  /** After losing the race, the re-read always finds the winner's record. */
  lemma ReReadFinds(states: seq<Sys>, labels: seq<Label>, n: nat, r: RequestId)
    requires Run(AddInside, states, labels) && n <= |labels|
    requires r in states[n].sessions && states[n].sessions[r].phase == Lost
    ensures Enabled(states[n], ReRead(r))
  {
    RunKeepsInv(states, labels, n);
  }

  function DeliveriesOf(db: Rows, id: EventId): set<DeliveryRow> {
    set d | d in db.deliveries && d.eventId == id
  }

  /** The record of key `k` names an event with that key, and promises exactly the deliveries that event has. */
  predicate RecordMatches(db: Rows, k: Key)
    requires k in db.records
  {
    var rec := db.records[k];
    rec.eventId in db.events && db.events[rec.eventId] == Some(k) && |DeliveriesOf(db, rec.eventId)| == rec.queued
  }

  predicate EventMatches(db: Rows, e: EventId)
    requires e in db.events
  {
    db.events[e].Some? ==> db.events[e].value in db.records && db.records[db.events[e].value].eventId == e
  }

  /** Keyed events and records match one to one, and every delivery belongs to an event. */
  ghost predicate Consistent(db: Rows) {
    && (forall e :: e in db.events ==> EventMatches(db, e))
    && (forall k :: k in db.records ==> RecordMatches(db, k))
    && (forall d :: d in db.deliveries ==> d.eventId in db.events)
  }

  lemma {:induction false} FanOutCard(id: EventId, targets: set<EndpointId>)
    ensures |set e | e in targets :: DeliveryRow(id, e)| == |targets|
    decreases |targets|
  {
    if targets != {} {
      var x :| x in targets;
      FanOutCard(id, targets - {x});
      assert (set e | e in targets :: DeliveryRow(id, e)) ==
             (set e | e in targets - {x} :: DeliveryRow(id, e)) + {DeliveryRow(id, x)};
    }
  }

  lemma EventStillMatches(db: Rows, req: Request, id: EventId, targets: set<EndpointId>, e: EventId)
    requires !Hit(db, req) && e in Merge(db, Objects(req, id, targets)).events
    requires e != id ==> EventMatches(db, e)
    ensures EventMatches(Merge(db, Objects(req, id, targets)), e)
  {
  }

  lemma OldRecordMatches(db: Rows, req: Request, id: EventId, targets: set<EndpointId>, k: Key)
    requires k in db.records && RecordMatches(db, k) && !Hit(db, req) && id !in db.events
    ensures RecordMatches(Merge(db, Objects(req, id, targets)), k)
  {
    var e := db.records[k].eventId;
    assert DeliveriesOf(Merge(db, Objects(req, id, targets)), e) == DeliveriesOf(db, e);
  }

  lemma NewRecordMatches(db: Rows, req: Request, id: EventId, targets: set<EndpointId>)
    requires req.key.Some? && id !in db.events
    requires forall d :: d in db.deliveries ==> d.eventId in db.events
    ensures RecordMatches(Merge(db, Objects(req, id, targets)), req.key.value)
  {
    FanOutCard(id, targets);
    assert DeliveriesOf(Merge(db, Objects(req, id, targets)), id) == set e | e in targets :: DeliveryRow(id, e);
  }

  lemma CreateKeepsConsistent(db: Rows, req: Request, id: EventId, targets: set<EndpointId>)
    requires Consistent(db) && !Hit(db, req) && id !in db.events
    ensures Consistent(Merge(db, Objects(req, id, targets)))
  {
    var after := Merge(db, Objects(req, id, targets));
    forall k | k in after.records ensures RecordMatches(after, k) {
      if k in db.records {
        OldRecordMatches(db, req, id, targets, k);
      } else {
        NewRecordMatches(db, req, id, targets);
      }
    }
    forall e | e in after.events ensures EventMatches(after, e) {
      EventStillMatches(db, req, id, targets, e);
    }
  }

  lemma {:induction false} ReplayConsistent(log: seq<Done>)
    requires Sequential(log)
    ensures Consistent(Replay(log))
  {
    if log != [] {
      var before, d := log[..|log| - 1], log[|log| - 1];
      ReplayConsistent(before);
      if !Hit(Replay(before), d.req) {
        CreateKeepsConsistent(Replay(before), d.req, d.eventId, d.targets);
      }
    }
  }

  lemma {:induction false} RepliesMatchRecords(log: seq<Done>, i: nat)
    requires Sequential(log) && i < |log| && log[i].req.key.Some?
    ensures var k, db := log[i].req.key.value, Replay(log);
      && k in db.records
      && log[i].reply == ReplyFrom(db.records[k], log[i].req)
  {
    if i < |log| - 1 {
      RepliesMatchRecords(log[..|log| - 1], i);
    }
  }

  /**
   * In every committed state: at most one event and one record exist for a key, with exactly the
   * deliveries the record promises; no delivery belongs to a losing request; and every finished
   * request with the key was told the winner's event and count, or 409 exactly when its body differs
   * from the winner's.
   */
  lemma OneEventPerKey(states: seq<Sys>, labels: seq<Label>, n: nat)
    requires Run(AddInside, states, labels) && n <= |labels|
    ensures Consistent(states[n].db)
    ensures forall d, e | d in states[n].db.events && e in states[n].db.events ::
              states[n].db.events[d] == states[n].db.events[e] && states[n].db.events[d].Some? ==> d == e
    ensures forall i :: 0 <= i < |states[n].log| && states[n].log[i].req.key.Some? ==>
              var done, db := states[n].log[i], states[n].db;
              && done.req.key.value in db.records
              && var winner := db.records[done.req.key.value];
              && (done.reply == Conflict <==> done.req.hash != winner.hash)
              && (done.reply != Conflict ==> done.reply == Created(winner.eventId, winner.queued))
  {
    RunKeepsInv(states, labels, n);
    ReplayConsistent(states[n].log);
    forall i | 0 <= i < |states[n].log| && states[n].log[i].req.key.Some?
      ensures states[n].log[i].req.key.value in states[n].db.records
      ensures states[n].log[i].reply ==
              ReplyFrom(states[n].db.records[states[n].log[i].req.key.value], states[n].log[i].req)
    {
      RepliesMatchRecords(states[n].log, i);
    }
  }

  // ---------------------------------------------------------------------------
  // What every reply promised is there, with or without a key
  // ---------------------------------------------------------------------------

  /** The request has no key, or is the first finished one with its key. */
  predicate Creates(log: seq<Done>, i: nat) {
    i < |log| && (log[i].req.key == None || forall j :: 0 <= j < i ==> log[j].req.key != log[i].req.key)
  }

  /** Its event is there, with a delivery for each of its targets and no other. */
  ghost predicate Promised(db: Rows, d: Done) {
    && d.reply == Created(d.eventId, |d.targets|)
    && d.eventId in db.events && db.events[d.eventId] == d.req.key
    && (forall e: EndpointId :: DeliveryRow(d.eventId, e) in db.deliveries <==> e in d.targets)
    && |DeliveriesOf(db, d.eventId)| == |d.targets|
  }

  predicate HasKey(log: seq<Done>, k: Key) {
    exists j :: 0 <= j < |log| && log[j].req.key == Some(k)
  }

  lemma HasKeyLast(log: seq<Done>, k: Key)
    requires log != []
    ensures HasKey(log, k) <==> HasKey(log[..|log| - 1], k) || log[|log| - 1].req.key == Some(k)
  {
    var before := log[..|log| - 1];
    if HasKey(before, k) {
      var j :| 0 <= j < |before| && before[j].req.key == Some(k);
      assert log[j].req.key == Some(k);
    }
    if j :| 0 <= j < |log| - 1 && log[j].req.key == Some(k) {
      assert before[j].req.key == Some(k);
    }
  }

  lemma ServedRecords(db: Rows, d: Done, k: Key)
    ensures k in Serve(db, d.req, d.eventId, d.targets).0.records <==> k in db.records || d.req.key == Some(k)
  {
    ObjectsInserted(db, d.req, d.eventId, d.targets);
  }

  lemma {:induction false} KeysSeen(log: seq<Done>, k: Key)
    ensures k in Replay(log).records <==> HasKey(log, k)
  {
    if log != [] {
      KeysSeen(log[..|log| - 1], k);
      HasKeyLast(log, k);
      ServedRecords(Replay(log[..|log| - 1]), log[|log| - 1], k);
    }
  }

  lemma CreatesBefore(log: seq<Done>, n: nat, i: nat)
    requires i < n <= |log|
    ensures Creates(log[..n], i) <==> Creates(log, i)
    ensures log[..n][i] == log[i]
  {
    assert forall j :: 0 <= j < n ==> log[..n][j] == log[j];
  }

  lemma ServedEvents(db: Rows, d: Done)
    ensures Serve(db, d.req, d.eventId, d.targets).0.events ==
            if Hit(db, d.req) then db.events else db.events[d.eventId := d.req.key]
  {
    ObjectsInserted(db, d.req, d.eventId, d.targets);
  }

  lemma CreatesMisses(log: seq<Done>, i: nat)
    requires i < |log|
    ensures Creates(log, i) <==> !Hit(Replay(log[..i]), log[i].req)
  {
    if log[i].req.key.Some? {
      KeysSeen(log[..i], log[i].req.key.value);
      assert forall j :: 0 <= j < i ==> log[..i][j] == log[j];
    }
  }

  lemma NewDeliveries(before: Rows, after: Rows, req: Request, id: EventId, targets: set<EndpointId>)
    requires Inserted(before, after, req, id, targets) && forall d :: d in before.deliveries ==> d.eventId != id
    ensures forall e: EndpointId :: DeliveryRow(id, e) in after.deliveries <==> e in targets
    ensures |DeliveriesOf(after, id)| == |targets|
  {
    FanOutCard(id, targets);
    var expected := set e | e in targets :: DeliveryRow(id, e);
    forall d | d in DeliveriesOf(after, id) ensures d in expected {
      assert d == DeliveryRow(id, d.endpoint);
    }
    assert DeliveriesOf(after, id) == expected;
  }

  lemma PromisedNow(db: Rows, d: Done)
    requires Consistent(db) && d.eventId !in db.events && d.reply == Created(d.eventId, |d.targets|)
    ensures Promised(Merge(db, Objects(d.req, d.eventId, d.targets)), d)
  {
    ObjectsInserted(db, d.req, d.eventId, d.targets);
    NewDeliveries(db, Merge(db, Objects(d.req, d.eventId, d.targets)), d.req, d.eventId, d.targets);
  }

  lemma PromisedStill(db: Rows, d: Done, req: Request, id: EventId, targets: set<EndpointId>)
    requires Promised(db, d) && id !in db.events
    ensures Promised(Merge(db, Objects(req, id, targets)), d)
  {
    var after := Merge(db, Objects(req, id, targets));
    ObjectsInserted(db, req, id, targets);
    assert DeliveriesOf(after, d.eventId) == DeliveriesOf(db, d.eventId);
  }

  lemma {:induction false} LogPromised(log: seq<Done>, i: nat)
    requires Sequential(log) && Creates(log, i)
    ensures Promised(Replay(log), log[i])
  {
    var before, d := log[..|log| - 1], log[|log| - 1];
    ReplayConsistent(before);
    if i == |log| - 1 {
      CreatesMisses(log, i);
      PromisedNow(Replay(before), d);
    } else {
      CreatesBefore(log, |log| - 1, i);
      LogPromised(before, i);
      if !Hit(Replay(before), d.req) {
        PromisedStill(Replay(before), log[i], d.req, d.eventId, d.targets);
      }
    }
  }

  /** No event comes from anywhere else. */
  lemma {:induction false} EventHasCreator(log: seq<Done>, id: EventId) returns (i: nat)
    requires id in Replay(log).events
    ensures Creates(log, i) && log[i].eventId == id
  {
    var before, d := log[..|log| - 1], log[|log| - 1];
    ServedEvents(Replay(before), d);
    if id in Replay(before).events {
      i := EventHasCreator(before, id);
      CreatesBefore(log, |log| - 1, i);
    } else {
      i := |log| - 1;
      CreatesMisses(log, i);
    }
  }

  lemma RepliesHold(log: seq<Done>, i: nat)
    requires Sequential(log) && i < |log| && log[i].reply.Created?
    ensures log[i].reply.eventId in Replay(log).events
    ensures |DeliveriesOf(Replay(log), log[i].reply.eventId)| == log[i].reply.queued
  {
    if log[i].req.key == None {
      LogPromised(log, i);
    } else {
      ReplayConsistent(log);
      RepliesMatchRecords(log, i);
      assert RecordMatches(Replay(log), log[i].req.key.value);
    }
  }

  /**
   * In every run: a finished request without a key, or the first with its key, has its event committed,
   * with exactly one delivery for each active endpoint that its query found; there are no other events;
   * and whoever was told of an event and a number of deliveries finds just those.
   */
  lemma EveryEventIsDelivered(states: seq<Sys>, labels: seq<Label>, n: nat)
    requires Run(AddInside, states, labels) && n <= |labels|
    ensures forall i: nat :: Creates(states[n].log, i) ==> Promised(states[n].db, states[n].log[i])
    ensures forall id :: id in states[n].db.events ==>
              exists i: nat :: Creates(states[n].log, i) && states[n].log[i].eventId == id
    ensures forall i :: 0 <= i < |states[n].log| && states[n].log[i].reply.Created? ==>
              var reply, db := states[n].log[i].reply, states[n].db;
              reply.eventId in db.events && |DeliveriesOf(db, reply.eventId)| == reply.queued
  {
    RunKeepsInv(states, labels, n);
    var log := states[n].log;
    forall i: nat | Creates(log, i) ensures Promised(states[n].db, log[i]) {
      LogPromised(log, i);
    }
    forall id | id in states[n].db.events ensures exists i: nat :: Creates(log, i) && log[i].eventId == id {
      var i := EventHasCreator(log, id);
    }
    forall i | 0 <= i < |log| && log[i].reply.Created?
      ensures log[i].reply.eventId in states[n].db.events
      ensures |DeliveriesOf(states[n].db, log[i].reply.eventId)| == log[i].reply.queued
    {
      RepliesHold(log, i);
    }
  }

  // ---------------------------------------------------------------------------
  // Why the order of begin_nested and add matters
  // ---------------------------------------------------------------------------

  /** A keyed request that added its event before the savepoint, while another request has already committed the key. */
  predicate AboutToLose(s: Sys, r: RequestId) {
    && r in s.sessions
    && var x := s.sessions[r];
    && x.phase == Ready && Hit(s.db, x.req) && !KeyHeldElsewhere(s, r)
    && x.pending == EventAndDeliveries(x.req, x.eventId, x.targets) && x.written == NONE
    && s.db.records[x.req.key.value].eventId != x.eventId && s.db.records[x.req.key.value].hash == x.req.hash
  }

  lemma SecondEventLeaks(db: Rows, req: Request, id: EventId, targets: set<EndpointId>)
    requires Hit(db, req) && db.records[req.key.value].eventId != id
    ensures !Consistent(Merge(db, EventAndDeliveries(req, id, targets)))
  {
    var after := Merge(db, EventAndDeliveries(req, id, targets));
    assert after.events[id] == req.key && !EventMatches(after, id);
  }

  /** With the objects added before the savepoint, every loser commits its event too: two events for one key. */
  lemma LoserLeaks(s: Sys, r: RequestId) returns (s1: Sys, s2: Sys, s3: Sys, s4: Sys)
    requires AboutToLose(s, r)
    ensures Enabled(s, BeginNested(r)) && s1 == Exec(AddBefore, s, BeginNested(r))
    ensures Enabled(s1, Flush(r)) && s2 == Exec(AddBefore, s1, Flush(r))
    ensures Enabled(s2, ReRead(r)) && s3 == Exec(AddBefore, s2, ReRead(r))
    ensures Enabled(s3, Finish(r)) && s4 == Exec(AddBefore, s3, Finish(r))
    ensures var x := s.sessions[r];
      s4.db == Merge(s.db, EventAndDeliveries(x.req, x.eventId, x.targets)) && !Consistent(s4.db)
  {
    var x := s.sessions[r];
    s1 := Exec(AddBefore, s, BeginNested(r));
    assert s1.sessions[r].written == EventAndDeliveries(x.req, x.eventId, x.targets);
    s2 := Exec(AddBefore, s1, Flush(r));
    s3 := Exec(AddBefore, s2, ReRead(r));
    s4 := Exec(AddBefore, s3, Finish(r));
    SecondEventLeaks(s.db, x.req, x.eventId, x.targets);
  }

  lemma RunSnoc(order: Order, states: seq<Sys>, labels: seq<Label>, l: Label)
    requires Run(order, states, labels) && Enabled(states[|labels|], l)
    ensures Run(order, states + [Exec(order, states[|labels|], l)], labels + [l])
  {
  }

  lemma Arrivals(order: Order, req: Request) returns (states: seq<Sys>, labels: seq<Label>)
    ensures Run(order, states, labels) && |labels| == 4
    ensures var idle := Session(req, NotFound, 0, {}, NONE, NONE);
      states[4] == Sys(NONE, map[0 := idle, 1 := idle], {}, [])
  {
    states, labels := [Sys(NONE, map[], {}, [])], [];
    RunSnoc(order, states, labels, Arrive(0, req));
    states, labels := states + [Exec(order, states[0], Arrive(0, req))], labels + [Arrive(0, req)];
    RunSnoc(order, states, labels, Arrive(1, req));
    states, labels := states + [Exec(order, states[1], Arrive(1, req))], labels + [Arrive(1, req)];
    RunSnoc(order, states, labels, Lookup(0));
    states, labels := states + [Exec(order, states[2], Lookup(0))], labels + [Lookup(0)];
    RunSnoc(order, states, labels, Lookup(1));
    states, labels := states + [Exec(order, states[3], Lookup(1))], labels + [Lookup(1)];
  }

  lemma WinnerCommits(s: Sys) returns (after: seq<Sys>)
    requires s.db == NONE && s.sessions.Keys == {0, 1}
    requires forall r :: r in s.sessions ==>
               s.sessions[r].phase == Ready && s.sessions[r].req.key.Some? && s.sessions[r].written == NONE
    requires s.sessions[0].req == s.sessions[1].req && s.sessions[0].eventId != s.sessions[1].eventId
    requires forall r :: r in s.sessions ==> var x := s.sessions[r];
               x.pending == EventAndDeliveries(x.req, x.eventId, x.targets)
    ensures |after| == 3
    ensures Enabled(s, BeginNested(0)) && after[0] == Exec(AddBefore, s, BeginNested(0))
    ensures Enabled(after[0], Flush(0)) && after[1] == Exec(AddBefore, after[0], Flush(0))
    ensures Enabled(after[1], Finish(0)) && after[2] == Exec(AddBefore, after[1], Finish(0))
    ensures AboutToLose(after[2], 1)
  {
    var s1 := Exec(AddBefore, s, BeginNested(0));
    var s2 := Exec(AddBefore, s1, Flush(0));
    var s3 := Exec(AddBefore, s2, Finish(0));
    after := [s1, s2, s3];
  }

  lemma OneWins(states: seq<Sys>, labels: seq<Label>, req: Request) returns (states': seq<Sys>, labels': seq<Label>)
    requires req.key.Some? && Run(AddBefore, states, labels) && |labels| == 4
    requires var idle := Session(req, NotFound, 0, {}, NONE, NONE);
      states[4] == Sys(NONE, map[0 := idle, 1 := idle], {}, [])
    ensures Run(AddBefore, states', labels') && |labels'| == 9 && AboutToLose(states'[9], 1)
  {
    var f0, f1 := FanOut(0, 10, {7}), FanOut(1, 11, {7});
    RunSnoc(AddBefore, states, labels, f0);
    states', labels' := states + [Exec(AddBefore, states[4], f0)], labels + [f0];
    RunSnoc(AddBefore, states', labels', f1);
    states', labels' := states' + [Exec(AddBefore, states'[5], f1)], labels' + [f1];
    var win := WinnerCommits(states'[6]);
    RunSnoc(AddBefore, states', labels', BeginNested(0));
    states', labels' := states' + [win[0]], labels' + [BeginNested(0)];
    RunSnoc(AddBefore, states', labels', Flush(0));
    states', labels' := states' + [win[1]], labels' + [Flush(0)];
    RunSnoc(AddBefore, states', labels', Finish(0));
    states', labels' := states' + [win[2]], labels' + [Finish(0)];
  }

  /** Two requests with the same key and body race; the loser's event survives beside the winner's. */
  lemma AddBeforeLeaks(req: Request) returns (states: seq<Sys>, labels: seq<Label>)
    requires req.key.Some?
    ensures Run(AddBefore, states, labels) && |labels| == 13 && !Consistent(states[13].db)
  {
    states, labels := Arrivals(AddBefore, req);
    states, labels := OneWins(states, labels, req);
    var s1, s2, s3, s4 := LoserLeaks(states[9], 1);
    RunSnoc(AddBefore, states, labels, BeginNested(1));
    RunSnoc(AddBefore, states + [s1], labels + [BeginNested(1)], Flush(1));
    RunSnoc(AddBefore, states + [s1] + [s2], labels + [BeginNested(1)] + [Flush(1)], ReRead(1));
    RunSnoc(AddBefore, states + [s1] + [s2] + [s3], labels + [BeginNested(1)] + [Flush(1)] + [ReRead(1)], Finish(1));
    states := states + [s1] + [s2] + [s3] + [s4];
    labels := labels + [BeginNested(1)] + [Flush(1)] + [ReRead(1)] + [Finish(1)];
  }
}
