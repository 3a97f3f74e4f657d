/**
 * Keyset pagination: the cursor (app/routers/_pagination.py), one page of the delivery list
 * (app/routers/deliveries.py), and the client that follows cursors to the end (benchmark/runner.py).
 */
module Keyset {
  import opened Prelude
  import Text

  /** The datetimes that Python can represent, by their number of microseconds since the first one. */
  const TIMES := 315_537_897_600_000_000

  type At = x: int | 0 <= x < TIMES

  /** The 128-bit UUIDs. */
  const UUIDS := 0x1_0000_0000_0000_0000_0000_0000_0000_0000

  type Id = x: nat | x < UUIDS

  /** What a page is ordered by: creation time, then id, both descending. */
  datatype Key = Key(at: At, id: Id)

  predicate Before(k: Key, m: Key) {
    k.at < m.at || (k.at == m.at && k.id < m.id)
  }

  // ---------------------------------------------------------------------------
  // The cursor
  // ---------------------------------------------------------------------------

  /** Library calls: ISO timestamps, UUID text and URL-safe base64, with None where reading raises. */
  datatype Library = Library(iso: At -> string, readIso: string -> Option<At>, idText: Id -> string,
                             readId: string -> Option<Id>, encode: string -> string, decode: string -> Option<string>)

  ghost predicate Faithful(lib: Library) {
    && (forall t: At :: lib.readIso(lib.iso(t)) == Some(t) && '|' !in lib.iso(t))
    && (forall i: Id :: lib.readId(lib.idText(i)) == Some(i))
    && (forall s :: lib.decode(lib.encode(s)) == Some(s) && (s != "" ==> lib.encode(s) != ""))
  }

  function ReadBelow(s: string, bound: nat): (r: Option<nat>)
    ensures r.Some? ==> r.value < bound
  {
    var n := Text.ReadInt(s);
    if n.Some? && 0 <= n.value < bound then Some(n.value) else None
  }

  /** Such a library exists. */
  lemma FaithfulExists() returns (lib: Library)
    ensures Faithful(lib)
  {
    lib := Library((t: At) => Text.IntText(t), s => ReadBelow(s, TIMES),
                   (i: Id) => Text.IntText(i), s => ReadBelow(s, UUIDS), s => s, s => Some(s));
    forall t: At ensures lib.readIso(lib.iso(t)) == Some(t) && '|' !in lib.iso(t) {
      Text.IntRoundTrip(t);
    }
    forall i: Id ensures lib.readId(lib.idText(i)) == Some(i) {
      Text.IntRoundTrip(i);
    }
  }

  function EncodeCursor(lib: Library, k: Key): string {
    lib.encode(lib.iso(k.at) + ("|" + lib.idText(k.id)))
  }

  /** `raw.split("|", 1)`; None when there is nothing to split at. */
  function SplitOnce(s: string): Option<(string, string)> {
    if s == "" then None
    else if s[0] == '|' then Some(("", s[1..]))
    else
      match SplitOnce(s[1..])
      case None => None
      case Some((a, b)) => Some(([s[0]] + a, b))
  }

  /** None is the 422 answer. */
  function DecodeCursor(lib: Library, cursor: string): Option<Key> {
    match lib.decode(cursor)
    case None => None
    case Some(raw) =>
      match SplitOnce(raw)
      case None => None
      case Some((at, id)) =>
        if lib.readIso(at) == None || lib.readId(id) == None then None
        else Some(Key(lib.readIso(at).value, lib.readId(id).value))
  }

  lemma {:induction false} SplitJoined(a: string, b: string)
    requires '|' !in a
    ensures SplitOnce(a + ("|" + b)) == Some((a, b))
  {
    if a == "" {
      assert a + ("|" + b) == "|" + b;
    } else {
      SplitJoined(a[1..], b);
      assert (a + ("|" + b))[1..] == a[1..] + ("|" + b);
      assert [a[0]] + a[1..] == a;
    }
  }

  lemma {:induction false} SplitOnceIs(s: string)
    ensures match SplitOnce(s)
            case None => '|' !in s
            case Some((a, b)) => '|' !in a && s == a + ("|" + b)
  {
    if s != "" && s[0] != '|' {
      SplitOnceIs(s[1..]);
      assert s == [s[0]] + s[1..];
    }
  }

  /** The decoded cursor is the text of a time, a bar, and the text of an id; the time holds no bar. */
  predicate IsText(lib: Library, raw: string, at: string, id: string, k: Key) {
    raw == at + ("|" + id) && '|' !in at && lib.readIso(at) == Some(k.at) && lib.readId(id) == Some(k.id)
  }

  lemma DecodeIff(lib: Library, cursor: string, k: Key)
    ensures DecodeCursor(lib, cursor) == Some(k) <==>
            lib.decode(cursor).Some? && exists at, id :: IsText(lib, lib.decode(cursor).value, at, id, k)
  {
    if lib.decode(cursor).Some? {
      var raw := lib.decode(cursor).value;
      SplitOnceIs(raw);
      if at, id :| IsText(lib, raw, at, id, k) {
        SplitJoined(at, id);
      } else if DecodeCursor(lib, cursor) == Some(k) {
        var (at, id) := SplitOnce(raw).value;
        assert IsText(lib, raw, at, id, k);
      }
    }
  }

  /** A cursor read back is the key it was made from, and never looks absent to a client. */
  lemma CursorRoundTrip(lib: Library, k: Key)
    requires Faithful(lib)
    ensures DecodeCursor(lib, EncodeCursor(lib, k)) == Some(k) && EncodeCursor(lib, k) != ""
  {
    SplitJoined(lib.iso(k.at), lib.idText(k.id));
  }

  // ---------------------------------------------------------------------------
  // The table and its filters
  // ---------------------------------------------------------------------------

  datatype Row = Row(createdAt: At, project: nat, status: nat, endpointId: nat, eventId: nat, eventType: string)

  type Table = map<Id, Row>

  datatype Filter = Filter(project: nat, status: Option<nat>, endpointId: Option<nat>, eventId: Option<nat>,
                           eventType: Option<string>, createdAfter: Option<At>, createdBefore: Option<At>)

  predicate Matches(f: Filter, row: Row) {
    && row.project == f.project
    && (f.status.Some? ==> row.status == f.status.value)
    && (f.endpointId.Some? ==> row.endpointId == f.endpointId.value)
    && (f.eventId.Some? ==> row.eventId == f.eventId.value)
    && (f.eventType.Some? ==> row.eventType == f.eventType.value)
    && (f.createdAfter.Some? ==> row.createdAt >= f.createdAfter.value)
    && (f.createdBefore.Some? ==> row.createdAt <= f.createdBefore.value)
  }

  /** The keys of the matching rows. */
  function Keys(t: Table, f: Filter): set<Key> {
    set d | d in t && Matches(f, t[d]) :: Key(t[d].createdAt, d)
  }

  predicate Below(k: Key, cursor: Option<Key>) {
    cursor.Some? ==> Before(k, cursor.value)
  }

  function KeysBelow(keys: set<Key>, cursor: Option<Key>): set<Key> {
    set k | k in keys && Below(k, cursor)
  }

  // ---------------------------------------------------------------------------
  // Newest first
  // ---------------------------------------------------------------------------

  predicate IsNewest(keys: set<Key>, k: Key) {
    k in keys && forall m :: m in keys && m != k ==> Before(m, k)
  }

  lemma {:induction false} NewestExists(keys: set<Key>)
    requires keys != {}
    ensures exists k :: IsNewest(keys, k)
    decreases |keys|
  {
    var x :| x in keys;
    var rest := keys - {x};
    if rest == {} {
      assert keys == {x} && IsNewest(keys, x);
    } else {
      NewestExists(rest);
      var m :| IsNewest(rest, m);
      var k := if Before(x, m) then m else x;
      assert IsNewest(keys, k) by {
        forall y | y in keys && y != k ensures Before(y, k) {
          assert y == x || y in rest;
        }
      }
    }
  }

  lemma NewestUnique(keys: set<Key>, k: Key, m: Key)
    requires IsNewest(keys, k) && IsNewest(keys, m)
    ensures k == m
  {
  }

  /** The matching keys in page order. */
  ghost function Sorted(keys: set<Key>): seq<Key>
    decreases |keys|
  {
    if keys == {} then []
    else
      NewestExists(keys);
      var k :| IsNewest(keys, k);
      [k] + Sorted(keys - {k})
  }

  ghost predicate Descending(s: seq<Key>) {
    forall i, j :: 0 <= i < j < |s| ==> Before(s[j], s[i])
  }

  ghost predicate Lists(keys: set<Key>, s: seq<Key>) {
    Descending(s) && forall k :: k in s <==> k in keys
  }

  lemma SortedFirst(keys: set<Key>, k: Key)
    requires IsNewest(keys, k)
    ensures Sorted(keys) == [k] + Sorted(keys - {k})
  {
    var m := Sorted(keys)[0];
    NewestUnique(keys, k, m);
  }

  lemma Prepend(keys: set<Key>, k: Key, s: seq<Key>)
    requires IsNewest(keys, k) && Lists(keys - {k}, s)
    ensures Lists(keys, [k] + s)
  {
    forall j | 0 <= j < |s| ensures Before(s[j], k) {
      assert s[j] in keys - {k};
    }
  }

  lemma {:induction false} SortedLists(keys: set<Key>)
    ensures Lists(keys, Sorted(keys)) && |Sorted(keys)| == |keys|
    decreases |keys|
  {
    if keys != {} {
      NewestExists(keys);
      var k :| IsNewest(keys, k);
      SortedFirst(keys, k);
      SortedLists(keys - {k});
      Prepend(keys, k, Sorted(keys - {k}));
    }
  }

  lemma TailOf(keys: set<Key>, s: seq<Key>)
    requires s != [] && Lists(keys, s)
    ensures Lists(keys - {s[0]}, s[1..])
  {
    forall k | k in keys - {s[0]} ensures k in s[1..] {
      assert k in s;
      var i :| 0 <= i < |s| && s[i] == k;
      assert s[1..][i - 1] == k;
    }
    forall k | k in s[1..] ensures k in keys && k != s[0] {
      var i :| 0 <= i < |s[1..]| && s[1..][i] == k;
      assert s[i + 1] == k && Before(s[i + 1], s[0]);
    }
  }

  /** There is only one way to list a set newest first. */
  lemma {:induction false} SortedUnique(keys: set<Key>, s: seq<Key>)
    requires Lists(keys, s)
    ensures s == Sorted(keys)
    decreases |s|
  {
    if s == [] {
      assert keys == {};
    } else {
      assert IsNewest(keys, s[0]) by {
        assert s[0] in keys;
        forall m | m in keys && m != s[0] ensures Before(m, s[0]) {
          assert m in s;
        }
      }
      TailOf(keys, s);
      SortedUnique(keys - {s[0]}, s[1..]);
      SortedFirst(keys, s[0]);
    }
  }

  /** What remains after the first `n` keys is the listing of the keys below the last of them. */
  lemma SortedSuffix(keys: set<Key>, n: nat)
    requires 0 < n <= |keys|
    ensures |Sorted(keys)| == |keys|
    ensures Sorted(keys)[n - 1] in keys
    ensures Sorted(keys)[n..] == Sorted(KeysBelow(keys, Some(Sorted(keys)[n - 1])))
  {
    SortedLists(keys);
    var s := Sorted(keys);
    assert s[n - 1] in s;
    var rest := KeysBelow(keys, Some(s[n - 1]));
    forall k | k in rest ensures k in s[n..] {
      assert k in s;
      var i :| 0 <= i < |s| && s[i] == k;
      assert i >= n;
      assert s[n..][i - n] == k;
    }
    forall k | k in s[n..] ensures k in rest {
      var i :| 0 <= i < |s[n..]| && s[n..][i] == k;
      assert s[i + n] == k && s[i + n] in s;
    }
    SortedUnique(rest, s[n..]);
  }

  // ---------------------------------------------------------------------------
  // One page
  // ---------------------------------------------------------------------------

  const MAX_LIMIT := 200

  datatype Response = Invalid | Page(items: seq<Key>, next: Option<string>)

  function Min(a: nat, b: nat): nat {
    if a < b then a else b
  }

  predicate BadRange(f: Filter) {
    f.createdAfter.Some? && f.createdBefore.Some? && f.createdAfter.value > f.createdBefore.value
  }

  /** The position the cursor parameter stands for; None is the beginning. */
  function Position(lib: Library, cursor: Option<string>): Option<Key> {
    if cursor == None then None else DecodeCursor(lib, cursor.value)
  }

  predicate Rejected(lib: Library, f: Filter, limit: int, cursor: Option<string>) {
    limit < 1 || limit > MAX_LIMIT || BadRange(f) || (cursor.Some? && DecodeCursor(lib, cursor.value) == None)
  }

  /** The `n` newest of `keys`, or all of them. */
  ghost function Newest(keys: set<Key>, n: nat): seq<Key> {
    SortedLists(keys);
    Sorted(keys)[..Min(n, |keys|)]
  }

  /** `r` is the page of the `limit` newest of `keys`, with a cursor exactly when there are more. */
  ghost predicate IsPage(lib: Library, keys: set<Key>, limit: nat, r: Response) {
    && r.Page?
    && r.items == Newest(keys, limit)
    && r.next == if |keys| > limit && r.items != [] then Some(EncodeCursor(lib, r.items[|r.items| - 1])) else None
  }

  lemma Shift(rows: seq<Key>, k: Key, tail: seq<Key>)
    ensures rows + ([k] + tail) == (rows + [k]) + tail
  {
  }

  /** ORDER BY created_at DESC, id DESC LIMIT n. */
  method SelectNewest(keys: set<Key>, n: nat) returns (rows: seq<Key>)
    ensures rows == Newest(keys, n) && |rows| == Min(n, |keys|)
  {
    rows := [];
    var rest := keys;
    while |rows| < n && rest != {}
      invariant |rest| + |rows| == |keys| && |rows| <= n
      invariant Sorted(keys) == rows + Sorted(rest)
      decreases |rest|
    {
      NewestExists(rest);
      var k :| k in rest && IsNewest(rest, k);
      SortedFirst(rest, k);
      Shift(rows, k, Sorted(rest - {k}));
      rows := rows + [k];
      rest := rest - {k};
    }
    SortedLists(keys);
    SortedLists(rest);
  }

  lemma PageOfRows(keys: set<Key>, limit: nat, rows: seq<Key>)
    requires rows == Newest(keys, limit + 1) && |rows| == Min(limit + 1, |keys|)
    ensures |rows| > limit <==> |keys| > limit
    ensures (if |rows| > limit then rows[..limit] else rows) == Newest(keys, limit)
  {
    SortedLists(keys);
  }

  predicate IsOlder(k: Key, m: Key) {
    if k.at == m.at then k.id < m.id else k.at < m.at
  }

  /** The row of the key is there, passes every filter that is set, and comes after the position. */
  predicate Wanted(t: Table, f: Filter, from: Option<Key>, k: Key) {
    && k.id in t && t[k.id].createdAt == k.at && t[k.id].project == f.project
    && (f.status != None ==> Some(t[k.id].status) == f.status)
    && (f.endpointId != None ==> Some(t[k.id].endpointId) == f.endpointId)
    && (f.eventId != None ==> Some(t[k.id].eventId) == f.eventId)
    && (f.eventType != None ==> Some(t[k.id].eventType) == f.eventType)
    && (f.createdAfter != None ==> f.createdAfter.value <= k.at)
    && (f.createdBefore != None ==> k.at <= f.createdBefore.value)
    && (from != None ==> IsOlder(k, from.value))
  }

  /** The page of the newest wanted rows: newest first, at most `limit`, and a cursor when some are left. */
  ghost predicate Answers(t: Table, f: Filter, from: Option<Key>, limit: nat, r: Response) {
    && r.Page? && |r.items| <= limit
    && (forall i :: 0 <= i < |r.items| ==> Wanted(t, f, from, r.items[i]))
    && (forall i, j :: 0 <= i < j < |r.items| ==> IsOlder(r.items[j], r.items[i]))
    && (forall k, i :: Wanted(t, f, from, k) && k !in r.items && 0 <= i < |r.items| ==> IsOlder(k, r.items[i]))
    && (r.next != None <==> exists k :: Wanted(t, f, from, k) && k !in r.items)
  }

  lemma WantedIff(t: Table, f: Filter, from: Option<Key>, k: Key)
    ensures Wanted(t, f, from, k) <==> k in KeysBelow(Keys(t, f), from)
  {
    if Wanted(t, f, from, k) {
      assert k == Key(t[k.id].createdAt, k.id);
    }
  }

  lemma NewestAre(keys: set<Key>, n: nat)
    ensures var items := Newest(keys, n);
      && |items| == Min(n, |keys|) && Elems(items) <= keys
      && (forall i, j :: 0 <= i < j < |items| ==> IsOlder(items[j], items[i]))
      && (forall k, i :: k in keys && k !in items && 0 <= i < |items| ==> IsOlder(k, items[i]))
  {
    SortedLists(keys);
    var s, items := Sorted(keys), Newest(keys, n);
    forall i | 0 <= i < |items| ensures items[i] in keys {
      assert s[i] in s;
    }
    forall m | 0 <= m < |items| ensures s[m] in items {
      assert items[m] == s[m];
    }
    forall k, i | k in keys && k !in items && 0 <= i < |items| ensures IsOlder(k, items[i]) {
      assert k in s;
      var j :| 0 <= j < |s| && s[j] == k;
      assert Before(s[j], s[i]);
    }
  }

  lemma LeftOver(keys: set<Key>, n: nat)
    ensures |keys| > n <==> exists k :: k in keys && k !in Newest(keys, n)
  {
    NewestAre(keys, n);
    var items := Newest(keys, n);
    forall i, j | 0 <= i < j < |items| ensures items[i] != items[j] {
      assert IsOlder(items[j], items[i]);
    }
    DistinctCard(items, |items|);
    if forall k :: k in keys ==> k in items {
      SubsetCard(keys, Elems(items));
    } else {
      var k :| k in keys && k !in items;
      SubsetCard(Elems(items) + {k}, keys);
    }
  }

  lemma PageAnswers(lib: Library, t: Table, f: Filter, from: Option<Key>, limit: nat, r: Response)
    requires limit >= 1 && IsPage(lib, KeysBelow(Keys(t, f), from), limit, r)
    ensures Answers(t, f, from, limit, r)
  {
    var keys := KeysBelow(Keys(t, f), from);
    NewestAre(keys, limit);
    LeftOver(keys, limit);
    forall k ensures Wanted(t, f, from, k) <==> k in keys {
      WantedIff(t, f, from, k);
    }
    forall i | 0 <= i < |r.items| ensures Wanted(t, f, from, r.items[i]) {
      assert r.items[i] in Elems(r.items);
    }
  }

  method ListDeliveries(lib: Library, t: Table, f: Filter, limit: int, cursor: Option<string>) returns (r: Response)
    ensures r == Invalid <==> Rejected(lib, f, limit, cursor)
    ensures r == Invalid <==>
            || limit < 1 || limit > 200
            || (f.createdAfter != None && f.createdBefore != None && f.createdBefore.value < f.createdAfter.value)
            || (cursor != None && DecodeCursor(lib, cursor.value) == None)
    ensures r != Invalid ==>
              Answers(t, f, if cursor == None then None else DecodeCursor(lib, cursor.value), limit, r)
    ensures r != Invalid ==> IsPage(lib, KeysBelow(Keys(t, f), Position(lib, cursor)), limit, r)
  {
    if limit < 1 || limit > MAX_LIMIT {
      return Invalid;
    }
    if f.createdAfter.Some? && f.createdBefore.Some? && f.createdAfter.value > f.createdBefore.value {
      return Invalid;
    }
    var keys := set d | d in t && Matches(f, t[d]) :: Key(t[d].createdAt, d);
    if cursor.Some? {
      var k := DecodeCursor(lib, cursor.value);
      if k == None {
        return Invalid;
      }
      keys := set m | m in keys && (m.at < k.value.at || (m.at == k.value.at && m.id < k.value.id));
    }
    assert keys == KeysBelow(Keys(t, f), Position(lib, cursor));
    var rows := SelectNewest(keys, limit + 1);
    PageOfRows(KeysBelow(Keys(t, f), Position(lib, cursor)), limit, rows);
    var hasNext := |rows| > limit;
    var page := if hasNext then rows[..limit] else rows;
    var next := None;
    if hasNext && page != [] {
      next := Some(EncodeCursor(lib, page[|page| - 1]));
    }
    r := Page(page, next);
    PageAnswers(lib, t, f, Position(lib, cursor), limit, r);
  }

  // ---------------------------------------------------------------------------
  // Following the cursors
  // ---------------------------------------------------------------------------

  /** max(1, ceil(n / limit)) */
  function Pages(n: nat, limit: nat): nat
    requires limit >= 1
  {
    if n <= limit then 1 else 1 + Pages(n - limit, limit)
  }

  lemma {:induction false} PagesIsCeil(n: nat, limit: nat)
    requires limit >= 1
    ensures Pages(n, limit) >= 1 && (Pages(n, limit) - 1) * limit <= n <= Pages(n, limit) * limit
    ensures n > 0 ==> (Pages(n, limit) - 1) * limit < n
  {
    if n > limit {
      PagesIsCeil(n - limit, limit);
    }
  }

  /** `items` have been fetched, `rest` is what lies below the cursor, and so many requests are still needed. */
  ghost predicate Following(lib: Library, all: set<Key>, limit: nat, cursor: Option<string>, rest: set<Key>,
                            items: seq<Key>, requests: nat)
    requires limit >= 1
  {
    && (cursor.Some? ==> Position(lib, cursor).Some?)
    && rest == KeysBelow(all, Position(lib, cursor))
    && items + Sorted(rest) == Sorted(all)
    && requests + Pages(|rest|, limit) == Pages(|all|, limit)
  }

  lemma Begin(lib: Library, all: set<Key>, limit: nat)
    requires limit >= 1
    ensures Following(lib, all, limit, None, all, [], 0)
  {
    assert KeysBelow(all, None) == all;
    assert [] + Sorted(all) == Sorted(all);
  }

  lemma RestOfKeys(keys: set<Key>, n: nat)
    requires 0 < n < |keys|
    ensures |Newest(keys, n)| == n && Newest(keys, n)[n - 1] in keys
    ensures var rest := KeysBelow(keys, Some(Newest(keys, n)[n - 1]));
      Newest(keys, n) + Sorted(rest) == Sorted(keys) && |rest| == |keys| - n
  {
    SortedSuffix(keys, n);
    SortedLists(KeysBelow(keys, Some(Sorted(keys)[n - 1])));
    assert Sorted(keys) == Sorted(keys)[..n] + Sorted(keys)[n..];
  }

  lemma LowerStill(all: set<Key>, from: Option<Key>, last: Key)
    requires last in KeysBelow(all, from)
    ensures KeysBelow(KeysBelow(all, from), Some(last)) == KeysBelow(all, Some(last))
  {
  }

  lemma NextPage(lib: Library, all: set<Key>, from: Option<Key>, limit: nat, r: Response)
    returns (from': Option<Key>, rest: set<Key>)
    requires Faithful(lib) && limit >= 1 && IsPage(lib, KeysBelow(all, from), limit, r) && r.next.Some?
    ensures from'.Some? && from' == Position(lib, r.next) && rest == KeysBelow(all, from')
    ensures r.items + Sorted(rest) == Sorted(KeysBelow(all, from))
    ensures Pages(|KeysBelow(all, from)|, limit) == 1 + Pages(|rest|, limit) && |rest| < |KeysBelow(all, from)|
  {
    var keys := KeysBelow(all, from);
    RestOfKeys(keys, limit);
    var last := r.items[limit - 1];
    CursorRoundTrip(lib, last);
    LowerStill(all, from, last);
    from', rest := Some(last), KeysBelow(all, Some(last));
  }

  lemma Advance(lib: Library, all: set<Key>, limit: nat, cursor: Option<string>, rest: set<Key>,
                items: seq<Key>, requests: nat, r: Response)
    returns (rest': set<Key>)
    requires Faithful(lib) && limit >= 1 && Following(lib, all, limit, cursor, rest, items, requests)
    requires IsPage(lib, rest, limit, r) && r.next.Some?
    ensures Following(lib, all, limit, r.next, rest', items + r.items, requests + 1)
    ensures |rest'| < |rest|
  {
    var from';
    from', rest' := NextPage(lib, all, Position(lib, cursor), limit, r);
    assert (items + r.items) + Sorted(rest') == items + (r.items + Sorted(rest'));
  }

  lemma LastPage(lib: Library, rest: set<Key>, limit: nat, r: Response)
    requires Faithful(lib) && limit >= 1 && IsPage(lib, rest, limit, r) && (r.next == None || r.next == Some(""))
    ensures r.items == Sorted(rest) && Pages(|rest|, limit) == 1
  {
    SortedLists(rest);
    if r.next.Some? {
      CursorRoundTrip(lib, r.items[|r.items| - 1]);
    }
  }

  /** One request of the client, in good order. */
  method GetPage(lib: Library, t: Table, f: Filter, limit: nat, cursor: Option<string>) returns (r: Response)
    requires !Rejected(lib, f, limit, cursor)
    ensures IsPage(lib, KeysBelow(Keys(t, f), Position(lib, cursor)), limit, r)
  {
    r := ListDeliveries(lib, t, f, limit, cursor);
  }

  /**
   * The client loop over a table that does not change: all matching rows, newest first, each once,
   * in max(1, ceil(n / limit)) requests.
   */
  method FetchAll(lib: Library, t: Table, f: Filter, limit: nat) returns (items: seq<Key>, requests: nat)
    requires Faithful(lib) && 1 <= limit <= MAX_LIMIT && !BadRange(f)
    ensures items == Sorted(Keys(t, f)) && Lists(Keys(t, f), items) && |items| == |Keys(t, f)|
    ensures requests == Pages(|Keys(t, f)|, limit)
  {
    items, requests := [], 0;
    var cursor: Option<string> := None;
    ghost var all := Keys(t, f);
    ghost var rest := all;
    Begin(lib, all, limit);
    while true
      invariant Following(lib, all, limit, cursor, rest, items, requests)
      decreases |rest|
    {
      var r := GetPage(lib, t, f, limit, cursor);
      requests := requests + 1;
      items := items + r.items;
      if r.next == None || r.next == Some("") {
        LastPage(lib, rest, limit, r);
        SortedLists(all);
        break;
      }
      rest := Advance(lib, all, limit, cursor, rest, items[..|items| - |r.items|], requests - 1, r);
      cursor := r.next;
    }
  }

  // ---------------------------------------------------------------------------
  // Rows come and go between pages
  // ---------------------------------------------------------------------------

  /**
   * A walk over a table that changes between requests: the i-th page is served from `tables[i]`, each
   * request carries the previous page's cursor, and the last page has none.
   */
  ghost predicate Walk(lib: Library, f: Filter, limit: nat, tables: seq<Table>, from: Option<Key>, pages: seq<Response>)
  {
    && |pages| == |tables| > 0
    && IsPage(lib, KeysBelow(Keys(tables[0], f), from), limit, pages[0])
    && if pages[0].next == None then |pages| == 1
       else |pages| > 1 && Walk(lib, f, limit, tables[1..], DecodeCursor(lib, pages[0].next.value), pages[1..])
  }

  function Items(pages: seq<Response>): seq<Key>
    requires forall i :: 0 <= i < |pages| ==> pages[i].Page?
  {
    if pages == [] then [] else pages[0].items + Items(pages[1..])
  }

  lemma {:induction false} WalkHasPages(lib: Library, f: Filter, limit: nat, tables: seq<Table>, from: Option<Key>,
                                        pages: seq<Response>)
    requires Walk(lib, f, limit, tables, from, pages)
    ensures forall i :: 0 <= i < |pages| ==> pages[i].Page?
    decreases |pages|
  {
    if |pages| > 1 {
      WalkHasPages(lib, f, limit, tables[1..], DecodeCursor(lib, pages[0].next.value), pages[1..]);
      forall i | 0 <= i < |pages| ensures pages[i].Page? {
        assert i > 0 ==> pages[i] == pages[1..][i - 1];
      }
    }
  }

  ghost predicate AlwaysThere(tables: seq<Table>, f: Filter, k: Key) {
    forall i :: 0 <= i < |tables| ==> k in Keys(tables[i], f)
  }

  /** Which keys a page leaves for later: those below its last item. */
  lemma PageCovers(lib: Library, keys: set<Key>, limit: nat, r: Response)
    requires Faithful(lib) && limit >= 1 && IsPage(lib, keys, limit, r)
    ensures Descending(r.items) && forall k :: k in r.items ==> k in keys
    ensures r.next == None ==> forall k :: k in keys ==> k in r.items
    ensures r.next.Some? ==>
              && r.items != [] && DecodeCursor(lib, r.next.value) == Some(r.items[|r.items| - 1])
              && forall k :: k in keys ==> k in r.items || Before(k, r.items[|r.items| - 1])
  {
    SortedLists(keys);
    var s, n := Sorted(keys), Min(limit, |keys|);
    forall k | k in r.items ensures k in keys {
      assert k in s;
    }
    forall k | k in keys ensures k in r.items || (n < |s| && Before(k, r.items[n - 1])) {
      assert k in s;
      var i :| 0 <= i < |s| && s[i] == k;
      if i < n {
        assert r.items[i] == k;
      }
    }
    if r.next.Some? {
      CursorRoundTrip(lib, r.items[|r.items| - 1]);
    }
  }

  lemma StillThere(tables: seq<Table>, f: Filter, k: Key)
    requires tables != [] && AlwaysThere(tables, f, k)
    ensures k in Keys(tables[0], f) && AlwaysThere(tables[1..], f, k)
  {
    forall i | 0 <= i < |tables| - 1 ensures k in Keys(tables[1..][i], f) {
      assert tables[1..][i] == tables[i + 1];
    }
  }

  lemma DescendingConcat(x: seq<Key>, y: seq<Key>)
    requires x != [] && Descending(x) && Descending(y) && forall k :: k in y ==> Before(k, x[|x| - 1])
    ensures Descending(x + y)
  {
    forall i, j | 0 <= i < j < |x + y| ensures Before((x + y)[j], (x + y)[i]) {
      if i < |x| <= j {
        assert (x + y)[j] in y;
      }
    }
  }

  lemma BelowLast(x: seq<Key>, y: seq<Key>, from: Option<Key>)
    requires x != [] && (forall k :: k in x ==> Below(k, from)) && forall k :: k in y ==> Before(k, x[|x| - 1])
    ensures forall k :: k in y ==> Below(k, from)
  {
    assert x[|x| - 1] in x;
  }

  /**
   * Whatever is inserted, deleted or changed between the requests: the rows returned are strictly
   * descending, so none comes twice, and every row that is there and matches throughout comes once.
   */
  lemma {:induction false} WalkMissesNothing(lib: Library, f: Filter, limit: nat, tables: seq<Table>, from: Option<Key>,
                                             pages: seq<Response>)
    requires Faithful(lib) && limit >= 1 && Walk(lib, f, limit, tables, from, pages)
    ensures forall i :: 0 <= i < |pages| ==> pages[i].Page?
    ensures Descending(Items(pages)) && forall k :: k in Items(pages) ==> Below(k, from)
    ensures forall k :: AlwaysThere(tables, f, k) && Below(k, from) ==> k in Items(pages)
    decreases |pages|
  {
    WalkHasPages(lib, f, limit, tables, from, pages);
    PageCovers(lib, KeysBelow(Keys(tables[0], f), from), limit, pages[0]);
    if pages[0].next.Some? {
      WalkMissesNothing(lib, f, limit, tables[1..], DecodeCursor(lib, pages[0].next.value), pages[1..]);
      DescendingConcat(pages[0].items, Items(pages[1..]));
      BelowLast(pages[0].items, Items(pages[1..]), from);
      forall k | AlwaysThere(tables, f, k) && Below(k, from) ensures k in Items(pages) {
        StillThere(tables, f, k);
      }
    } else {
      assert pages[1..] == [];
    }
  }
}
