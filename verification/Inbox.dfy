/**
 * The receiver inbox (app/services/showcase.py, record_received_request and list_inbox): every
 * recording prunes the endpoint's rows to the newest 20, and listings cannot tell.
 */
module Inbox {
  import opened Prelude
  import opened Keyset

  const INBOX_KEEP := 20

  /** A received request; headers and body stand for all its other columns. */
  datatype Received = Received(endpointId: nat, receivedAt: At, content: string)

  type Rows = map<Id, Received>

  function KeysOf(rows: Rows, endpoint: nat): set<Key> {
    set d | d in rows && rows[d].endpointId == endpoint :: Key(rows[d].receivedAt, d)
  }

  // ---------------------------------------------------------------------------
  // The newest n of a set
  // ---------------------------------------------------------------------------

  function Above(keys: set<Key>, k: Key): set<Key> {
    set m | m in keys && Before(k, m)
  }

  /** The keys with fewer than `n` newer ones. */
  function Top(keys: set<Key>, n: nat): set<Key> {
    set k | k in keys && |Above(keys, k)| < n
  }

  /** The key at position `i` of the listing has exactly the `i` keys before it above it. */
  lemma RankOf(keys: set<Key>, i: nat)
    requires i < |Sorted(keys)|
    ensures Above(keys, Sorted(keys)[i]) == First(Sorted(keys), i)
    ensures |Above(keys, Sorted(keys)[i])| == i
  {
    SortedLists(keys);
    var s := Sorted(keys);
    forall m | m in Above(keys, s[i]) ensures m in First(s, i) {
      assert m in s;
      var j :| 0 <= j < |s| && s[j] == m;
      assert j < i;
    }
    forall m | m in First(s, i) ensures m in Above(keys, s[i]) {
      var j :| 0 <= j < i && s[j] == m;
      assert s[j] in s;
    }
    DistinctCard(s, i);
  }

  /** Keeping the top `n` keeps the first `n` of the listing. */
  lemma TopIsListed(keys: set<Key>, n: nat)
    ensures Sorted(Top(keys, n)) == Newest(keys, n)
  {
    SortedLists(keys);
    var s, first := Sorted(keys), Newest(keys, n);
    forall k | k in Top(keys, n) ensures k in first {
      assert k in s;
      var i :| 0 <= i < |s| && s[i] == k;
      RankOf(keys, i);
      assert first[i] == k;
    }
    forall k | k in first ensures k in Top(keys, n) {
      var i :| 0 <= i < |first| && first[i] == k;
      assert s[i] in s;
      RankOf(keys, i);
    }
    SortedUnique(Top(keys, n), first);
  }

  /** A listing of at most `n` keys does not see what pruning to `n` has deleted. */
  lemma ShortListing(keys: set<Key>, n: nat, limit: nat)
    requires limit <= n
    ensures Newest(Top(keys, n), limit) == Newest(keys, limit)
  {
    TopIsListed(keys, n);
    SortedLists(keys);
    SortedLists(Top(keys, n));
  }

  /** A key outside the top `n` has at least `n` above it, all of them in the top or above something that is not. */
  lemma TopFull(keys: set<Key>, n: nat, k: Key, m: Key)
    requires m in keys && m !in Top(keys, n) && Before(k, m)
    ensures |Above(Top(keys, n), k)| >= n
  {
    TopIsListed(keys, n);
    SortedLists(keys);
    SortedLists(Top(keys, n));
    var s := Sorted(keys);
    assert m in s;
    var i :| 0 <= i < |s| && s[i] == m;
    RankOf(keys, i);
    forall x | x in Top(keys, n) ensures x in Above(Top(keys, n), k) {
      assert x in Sorted(Top(keys, n));
      var j :| 0 <= j < n && s[j] == x;
      assert Before(s[i], s[j]);
    }
    assert Above(Top(keys, n), k) == Top(keys, n);
  }

  lemma SameRank(keys: set<Key>, n: nat, x: Key, k: Key)
    requires x !in keys && k in keys + {x}
    ensures k in Top(Top(keys, n) + {x}, n) <==> k in Top(keys + {x}, n)
  {
    var kept, all := Top(keys, n) + {x}, keys + {x};
    if k in keys && k !in Top(keys, n) {
      SubsetCard(Above(keys, k), Above(all, k));
    } else if exists m :: m in keys && m !in Top(keys, n) && Before(k, m) {
      var m :| m in keys && m !in Top(keys, n) && Before(k, m);
      TopFull(keys, n, k, m);
      SubsetCard(Above(Top(keys, n), k), Above(kept, k));
      SubsetCard(Above(Top(keys, n), k), Above(all, k));
    } else {
      assert Above(kept, k) == Above(all, k);
    }
  }

  /** Pruning before the next arrival keeps the same keys as never having pruned. */
  lemma TopOfTop(keys: set<Key>, n: nat, x: Key)
    requires x !in keys
    ensures Top(Top(keys, n) + {x}, n) == Top(keys + {x}, n)
  {
    forall k | k in keys + {x} ensures k in Top(Top(keys, n) + {x}, n) <==> k in Top(keys + {x}, n) {
      SameRank(keys, n, x, k);
    }
  }

  // ---------------------------------------------------------------------------
  // The inbox
  // ---------------------------------------------------------------------------

  predicate PrunedFor(rows: Rows, history: Rows, e: nat) {
    KeysOf(rows, e) == Top(KeysOf(history, e), INBOX_KEEP)
  }

  /** `rows` holds, for every endpoint, the newest 20 of everything in `history`. */
  ghost predicate Pruned(rows: Rows, history: Rows) {
    && rows.Keys <= history.Keys
    && (forall d :: d in rows ==> rows[d] == history[d])
    && (forall e: nat :: PrunedFor(rows, history, e))
  }

  /** The endpoint's requests of the history that came after request `d`, by time and then by id. */
  function Newer(history: Rows, d: Id): set<Id>
    requires d in history
  {
    set e | e in history && history[e].endpointId == history[d].endpointId &&
            (history[e].receivedAt > history[d].receivedAt || (history[e].receivedAt == history[d].receivedAt && e > d))
  }

  lemma {:induction false} SameCount(ids: set<Id>, keys: set<Key>, rows: Rows)
    requires forall d :: d in ids ==> d in rows && Key(rows[d].receivedAt, d) in keys
    requires forall k :: k in keys ==> k.id in ids && k == Key(rows[k.id].receivedAt, k.id)
    ensures |ids| == |keys|
    decreases |ids|
  {
    if ids == {} {
      assert keys == {};
    } else {
      var d :| d in ids;
      SameCount(ids - {d}, keys - {Key(rows[d].receivedAt, d)}, rows);
    }
  }

  /** The inbox holds exactly the requests with fewer than 20 newer ones of the same endpoint, unchanged. */
  lemma PrunedIs(rows: Rows, history: Rows, d: Id)
    requires Pruned(rows, history)
    ensures d in rows <==> d in history && |Newer(history, d)| < 20
    ensures d in rows ==> rows[d] == history[d]
  {
    if d in history {
      var e, k := history[d].endpointId, Key(history[d].receivedAt, d);
      assert PrunedFor(rows, history, e);
      assert k in KeysOf(history, e);
      SameCount(Newer(history, d), Above(KeysOf(history, e), k), history);
      assert d in rows <==> k in KeysOf(rows, e);
    }
  }

  predicate Stale(newest: seq<Key>, d: Id) {
    exists j :: INBOX_KEEP <= j < |newest| && newest[j].id == d
  }

  /** OFFSET `skip`, as a set of ids. */
  method IdsFrom(newest: seq<Key>, skip: nat) returns (ids: set<Id>)
    ensures forall d :: d in ids <==> exists j :: skip <= j < |newest| && newest[j].id == d
  {
    ids := {};
    for i := 0 to |newest|
      invariant forall d :: d in ids <==> exists j :: skip <= j < i && newest[j].id == d
    {
      if i >= skip {
        ids := ids + {newest[i].id};
      }
    }
  }

  lemma KeysOfAdded(rows: Rows, id: Id, request: Received, e: nat)
    requires id !in rows
    ensures KeysOf(rows[id := request], e) ==
            KeysOf(rows, e) + (if request.endpointId == e then {Key(request.receivedAt, id)} else {})
  {
    var after := rows[id := request];
    assert request.endpointId == e ==> Key(after[id].receivedAt, id) in KeysOf(after, e);
    forall k | k in KeysOf(rows, e) ensures k in KeysOf(after, e) {
      assert after[k.id] == rows[k.id];
    }
  }

  /** An id is deleted exactly when its key is in the endpoint's listing, but not in its top 20. */
  lemma StaleKey(rows: Rows, e: nat, f: nat, k: Key)
    requires k in KeysOf(rows, f)
    ensures Stale(Sorted(KeysOf(rows, e)), k.id) <==> f == e && k !in Top(KeysOf(rows, e), INBOX_KEEP)
  {
    var mine := KeysOf(rows, e);
    var newest := Sorted(mine);
    SortedLists(mine);
    if Stale(newest, k.id) {
      var j :| INBOX_KEEP <= j < |newest| && newest[j].id == k.id;
      assert newest[j] in newest;
      assert newest[j] == k;
      RankOf(mine, j);
    } else if f == e {
      assert k in newest;
      var j :| 0 <= j < |newest| && newest[j] == k;
      RankOf(mine, j);
    }
  }

  lemma KeyKept(rows: Rows, stale: set<Id>, f: nat, k: Key)
    requires k in KeysOf(rows, f)
    ensures k in KeysOf(rows - stale, f) <==> k.id !in stale
  {
    if k.id !in stale {
      assert (rows - stale)[k.id] == rows[k.id];
    }
  }

  /** Deleting the ids after position 20 of one endpoint's listing keeps its top 20, and every other endpoint. */
  lemma KeysOfPruned(rows: Rows, e: nat, stale: set<Id>, f: nat)
    requires forall d :: d in stale <==> Stale(Sorted(KeysOf(rows, e)), d)
    ensures KeysOf(rows - stale, f) == if f == e then Top(KeysOf(rows, e), INBOX_KEEP) else KeysOf(rows, f)
  {
    forall k | k in KeysOf(rows, f)
      ensures k in KeysOf(rows - stale, f) <==> f != e || k in Top(KeysOf(rows, e), INBOX_KEEP)
    {
      StaleKey(rows, e, f, k);
      KeyKept(rows, stale, f, k);
    }
    forall k | k in KeysOf(rows - stale, f) ensures k in KeysOf(rows, f) {
      assert rows[k.id] == (rows - stale)[k.id];
    }
  }

  lemma PruneFor(rows: Rows, history: Rows, id: Id, request: Received, stale: set<Id>, f: nat)
    requires Pruned(rows, history) && id !in history
    requires forall d :: d in stale <==> Stale(Sorted(KeysOf(rows[id := request], request.endpointId)), d)
    ensures PrunedFor(rows[id := request] - stale, history[id := request], f)
  {
    var x := Key(request.receivedAt, id);
    assert PrunedFor(rows, history, f);
    KeysOfPruned(rows[id := request], request.endpointId, stale, f);
    KeysOfAdded(rows, id, request, f);
    KeysOfAdded(history, id, request, f);
    if f == request.endpointId {
      assert x !in KeysOf(history, f);
      TopOfTop(KeysOf(history, f), INBOX_KEEP, x);
      assert KeysOf(rows[id := request], f) == Top(KeysOf(history, f), INBOX_KEEP) + {x};
      assert KeysOf(history[id := request], f) == KeysOf(history, f) + {x};
    } else {
      assert KeysOf(rows[id := request], f) == KeysOf(rows, f);
      assert KeysOf(history[id := request], f) == KeysOf(history, f);
    }
  }

  lemma PruneStep(rows: Rows, history: Rows, id: Id, request: Received, stale: set<Id>)
    requires Pruned(rows, history) && id !in history
    requires forall d :: d in stale <==> Stale(Sorted(KeysOf(rows[id := request], request.endpointId)), d)
    ensures Pruned(rows[id := request] - stale, history[id := request])
  {
    var rows', history' := rows[id := request] - stale, history[id := request];
    forall f: nat ensures PrunedFor(rows', history', f) {
      PruneFor(rows, history, id, request, stale, f);
    }
  }

  class Inbox {
    var rows: Rows
    /** Everything ever recorded. */
    ghost var history: Rows

    ghost predicate Valid()
      reads this
    {
      Pruned(rows, history)
    }

    constructor ()
      ensures Valid() && history == map[]
    {
      rows, history := map[], map[];
    }

    /** Appends one request, then deletes what lies beyond the endpoint's newest 20. */
    method RecordReceivedRequest(id: Id, request: Received)
      requires Valid() && id !in history
      modifies this
      ensures Valid() && history == old(history)[id := request]
      ensures forall d :: d in rows <==> d in history && |Newer(history, d)| < 20
      ensures forall d :: d in rows ==> rows[d] == history[d]
    {
      ghost var before := rows;
      rows := rows[id := request];
      var mine := set d | d in rows && rows[d].endpointId == request.endpointId :: Key(rows[d].receivedAt, d);
      var newest := SelectNewest(mine, |mine|);
      SortedLists(mine);
      var stale := IdsFrom(newest, INBOX_KEEP);
      assert forall d :: d in stale <==> Stale(newest, d);
      PruneStep(before, history, id, request, stale);
      rows := rows - stale;
      history := history[id := request];
      forall d ensures d in rows <==> d in history && |Newer(history, d)| < 20 {
        PrunedIs(rows, history, d);
      }
    }

    /** Every listing of at most 20 rows is that of the full history. */
    method ListInbox(endpoint: nat, limit: nat) returns (items: seq<Key>)
      requires Valid()
      ensures limit <= INBOX_KEEP ==> items == Newest(KeysOf(history, endpoint), limit)
      ensures forall i :: 0 <= i < |items| ==>
                items[i].id in rows && items[i] == Key(rows[items[i].id].receivedAt, items[i].id)
    {
      var mine := set d | d in rows && rows[d].endpointId == endpoint :: Key(rows[d].receivedAt, d);
      items := SelectNewest(mine, limit);
      assert PrunedFor(rows, history, endpoint);
      if limit <= INBOX_KEEP {
        ShortListing(KeysOf(history, endpoint), INBOX_KEEP, limit);
      }
      SortedLists(mine);
      assert forall i :: 0 <= i < |items| ==> items[i] in Sorted(mine);
    }
  }
}
