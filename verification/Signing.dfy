/**
 * The webhook signature header (app/worker/signing.py): what the worker prints, the receiver parses
 * back, checks for age, and recomputes.
 */
module Signing {
  import opened Prelude
  import opened Text

  /** Bytes are modelled as characters; the timestamp and the separator are ASCII. */
  type Bytes = string

  const MAX_AGE := 300

  /**
   * Library calls: the keyed digest in hex, `str(int)` and `int(str)` (None when it raises), and
   * `str.strip`.
   */
  datatype Library = Library(hmac: (string, Bytes) -> string, toText: int -> string, toInt: string -> Option<int>,
                             strip: string -> string)

  /** No separators and no outer blanks, as in hex digests and printed integers. */
  predicate Bare(lib: Library, s: string) {
    s != "" && ',' !in s && '=' !in s && '.' !in s && lib.strip(s) == s
  }

  ghost predicate Faithful(lib: Library) {
    && (forall key, m :: Bare(lib, lib.hmac(key, m)))
    && Bare(lib, "t") && Bare(lib, "v1")
  }

  /** The integer prints and reads back, as every integer within Python's limit of 4300 digits does. */
  predicate Prints(lib: Library, n: int) {
    Bare(lib, lib.toText(n)) && lib.toInt(lib.toText(n)) == Some(n)
  }

  /** Such a library exists. */
  lemma FaithfulExists() returns (lib: Library)
    ensures Faithful(lib) && forall n :: Prints(lib, n)
  {
    lib := Library((key, m) => "0", n => IntText(n), s => ReadInt(s), s => s);
    forall n ensures Prints(lib, n) {
      IntRoundTrip(n);
    }
  }

  // ---------------------------------------------------------------------------
  // Printing
  // ---------------------------------------------------------------------------

  function Canonical(lib: Library, timestamp: int, body: Bytes): Bytes {
    lib.toText(timestamp) + ("." + body)
  }

  function SignPayload(lib: Library, secret: string, timestamp: int, body: Bytes): string {
    lib.hmac(secret, Canonical(lib, timestamp, body))
  }

  function BuildSignatureHeader(lib: Library, secret: string, timestamp: int, body: Bytes): string {
    ("t=" + lib.toText(timestamp)) + ("," + ("v1=" + SignPayload(lib, secret, timestamp, body)))
  }

  // ---------------------------------------------------------------------------
  // Parsing
  // ---------------------------------------------------------------------------

  /** The text before the first `c`, and the text after it, if there is one. */
  function Partition(s: string, c: char): (string, Option<string>) {
    if s == "" then ("", None)
    else if s[0] == c then ("", Some(s[1..]))
    else
      var (a, b) := Partition(s[1..], c);
      ([s[0]] + a, b)
  }

  lemma {:induction false} PartitionShrinks(s: string, c: char)
    ensures Partition(s, c).1.Some? ==> |Partition(s, c).1.value| < |s|
  {
    if s != "" && s[0] != c {
      PartitionShrinks(s[1..], c);
    }
  }

  /** `s.split(c)`. */
  function Split(s: string, c: char): seq<string>
    decreases |s|
  {
    PartitionShrinks(s, c);
    var (first, rest) := Partition(s, c);
    if rest == None then [first] else [first] + Split(rest.value, c)
  }

  lemma {:induction false} PartitionJoined(a: string, c: char, b: string)
    requires c !in a
    ensures Partition(a + ([c] + b), c) == (a, Some(b))
  {
    if a == "" {
      assert a + ([c] + b) == [c] + b;
    } else {
      PartitionJoined(a[1..], c, b);
      assert (a + ([c] + b))[1..] == a[1..] + ([c] + b);
      assert [a[0]] + a[1..] == a;
    }
  }

  lemma {:induction false} PartitionWhole(a: string, c: char)
    requires c !in a
    ensures Partition(a, c) == (a, None)
  {
    if a != "" {
      PartitionWhole(a[1..], c);
      assert [a[0]] + a[1..] == a;
    }
  }

  lemma {:induction false} PartitionSplits(s: string, c: char)
    ensures var (a, b) := Partition(s, c);
      c !in a && (if c in s then b.Some? && s == a + ([c] + b.value) else b == None && s == a)
  {
    if s != "" && s[0] != c {
      PartitionSplits(s[1..], c);
      assert s == [s[0]] + s[1..];
    }
  }

  function Join(parts: seq<string>, c: char): string {
    if parts == [] then "" else if |parts| == 1 then parts[0] else parts[0] + ([c] + Join(parts[1..], c))
  }

  /** Splitting loses nothing, and no part holds a separator. */
  lemma {:induction false} SplitJoins(s: string, c: char)
    ensures Join(Split(s, c), c) == s && forall i :: 0 <= i < |Split(s, c)| ==> c !in Split(s, c)[i]
    decreases |s|
  {
    PartitionSplits(s, c);
    var (first, rest) := Partition(s, c);
    if rest.Some? {
      SplitJoins(rest.value, c);
      assert Split(s, c) == [first] + Split(rest.value, c);
      assert Split(s, c)[1..] == Split(rest.value, c);
    }
  }

  /** One `key=value` part; a part without '=' is skipped, a repeated key overwrites. */
  function WithPart(lib: Library, parts: map<string, string>, part: string): map<string, string> {
    match Partition(part, '=').1
    case None => parts
    case Some(value) => parts[lib.strip(Partition(part, '=').0) := lib.strip(value)]
  }

  function PartsOf(lib: Library, split: seq<string>): map<string, string> {
    if split == [] then map[]
    else WithPart(lib, PartsOf(lib, split[..|split| - 1]), split[|split| - 1])
  }

  /** The part is `key=value` up to blanks; the value may hold further '='. */
  ghost predicate Gives(lib: Library, part: string, key: string, value: string) {
    exists a, b :: part == a + ("=" + b) && '=' !in a && lib.strip(a) == key && lib.strip(b) == value
  }

  ghost predicate Names(lib: Library, part: string, key: string) {
    exists value :: Gives(lib, part, key, value)
  }

  lemma GivesIff(lib: Library, part: string, key: string, value: string)
    ensures Gives(lib, part, key, value) <==>
            var (a, b) := Partition(part, '=');
            b.Some? && lib.strip(a) == key && lib.strip(b.value) == value
  {
    var (a, b) := Partition(part, '=');
    PartitionSplits(part, '=');
    if Gives(lib, part, key, value) {
      var x, y :| part == x + ("=" + y) && '=' !in x && lib.strip(x) == key && lib.strip(y) == value;
      PartitionJoined(x, '=', y);
      assert ['='] + y == "=" + y;
    } else if b.Some? {
      assert part == a + ("=" + b.value) by {
        assert ['='] + b.value == "=" + b.value;
      }
    }
  }

  lemma WithPartIs(lib: Library, parts: map<string, string>, part: string, key: string)
    ensures Names(lib, part, key) ==>
              key in WithPart(lib, parts, part) && Gives(lib, part, key, WithPart(lib, parts, part)[key])
    ensures !Names(lib, part, key) ==>
              (key in WithPart(lib, parts, part) <==> key in parts)
              && (key in parts ==> WithPart(lib, parts, part)[key] == parts[key])
  {
    var (a, b) := Partition(part, '=');
    if Names(lib, part, key) {
      var value :| Gives(lib, part, key, value);
      GivesIff(lib, part, key, value);
    } else if b.Some? && lib.strip(a) == key {
      GivesIff(lib, part, key, lib.strip(b.value));
    }
  }

  /** The key's value is that of the last part that names it; without such a part it is missing. */
  lemma {:induction false} LastPartWins(lib: Library, split: seq<string>, key: string)
    ensures key in PartsOf(lib, split) <==> exists i :: 0 <= i < |split| && Names(lib, split[i], key)
    ensures key in PartsOf(lib, split) ==>
              exists i :: 0 <= i < |split| && Gives(lib, split[i], key, PartsOf(lib, split)[key])
                && forall j :: i < j < |split| ==> !Names(lib, split[j], key)
  {
    if split != [] {
      var n := |split| - 1;
      LastPartWins(lib, split[..n], key);
      WithPartIs(lib, PartsOf(lib, split[..n]), split[n], key);
      assert forall i :: 0 <= i < n ==> split[..n][i] == split[i];
    }
  }

  datatype Verdict = Valid | MissingHeader | Malformed | InvalidTimestamp | TooOld | Mismatch

  function Abs(x: real): real {
    if x < 0.0 then -x else x
  }

  /** The checks after parsing, in their order. */
  function Judge(lib: Library, secret: string, parts: map<string, string>, body: Bytes, now: real): Verdict {
    if !("t" in parts) || !("v1" in parts) || parts["t"] == "" || parts["v1"] == "" then Malformed
    else
      match lib.toInt(parts["t"])
      case None => InvalidTimestamp
      case Some(t) =>
        if Abs(now - t as real) > MAX_AGE as real then TooOld
        else if SignPayload(lib, secret, t, body) != parts["v1"] then Mismatch
        else Valid
  }

  function Verdicts(lib: Library, secret: string, header: Option<string>, body: Bytes, now: real): Verdict {
    if header == None || header.value == "" then MissingHeader
    else Judge(lib, secret, PartsOf(lib, Split(header.value, ',')), body, now)
  }

  /** What a verdict says of the header, the body and the clock, in the order of the checks. */
  ghost predicate Means(lib: Library, secret: string, header: Option<string>, body: Bytes, now: real,
                        verdict: Verdict)
  {
    if header == None || header.value == "" then verdict == MissingHeader
    else
      var parts := PartsOf(lib, Split(header.value, ','));
      if "t" !in parts || "v1" !in parts || parts["t"] == "" || parts["v1"] == "" then verdict == Malformed
      else
        match lib.toInt(parts["t"])
        case None => verdict == InvalidTimestamp
        case Some(t) =>
          && (verdict == TooOld <==> now - t as real > 300.0 || now - t as real < -300.0)
          && (verdict == Valid <==>
                -300.0 <= now - t as real <= 300.0 && parts["v1"] == lib.hmac(secret, lib.toText(t) + ("." + body)))
          && (verdict == TooOld || verdict == Valid || verdict == Mismatch)
  }

  lemma VerdictsMean(lib: Library, secret: string, header: Option<string>, body: Bytes, now: real)
    ensures Means(lib, secret, header, body, now, Verdicts(lib, secret, header, body, now))
  {
  }

  /** Only a fresh digest of this body under this secret is accepted, whatever the header. */
  lemma OnlySignedIsValid(lib: Library, secret: string, header: Option<string>, body: Bytes, now: real)
    requires Verdicts(lib, secret, header, body, now) == Valid
    ensures header.Some? && header.value != ""
    ensures var parts := PartsOf(lib, Split(header.value, ','));
      && "t" in parts && "v1" in parts && lib.toInt(parts["t"]).Some?
      && var t := lib.toInt(parts["t"]).value;
      && -300.0 <= now - t as real <= 300.0
      && parts["v1"] == lib.hmac(secret, lib.toText(t) + ("." + body))
  {
  }

  method VerifySignature(lib: Library, secret: string, header: Option<string>, body: Bytes, now: real)
    returns (verdict: Verdict)
    ensures verdict == Verdicts(lib, secret, header, body, now)
    ensures Means(lib, secret, header, body, now, verdict)
  {
    VerdictsMean(lib, secret, header, body, now);
    if header == None || header.value == "" {
      return MissingHeader;
    }
    var split := Split(header.value, ',');
    var parts: map<string, string> := map[];
    for i := 0 to |split|
      invariant parts == PartsOf(lib, split[..i])
    {
      var (key, value) := Partition(split[i], '=');
      if value.Some? {
        parts := parts[lib.strip(key) := lib.strip(value.value)];
      }
      assert split[..i + 1][..i] == split[..i];
    }
    assert split[..|split|] == split;
    if "t" !in parts || "v1" !in parts || parts["t"] == "" || parts["v1"] == "" {
      return Malformed;
    }
    var timestamp := lib.toInt(parts["t"]);
    if timestamp == None {
      return InvalidTimestamp;
    }
    var age := now - timestamp.value as real;
    if Abs(age) > MAX_AGE as real {
      return TooOld;
    }
    if SignPayload(lib, secret, timestamp.value, body) != parts["v1"] {
      return Mismatch;
    }
    verdict := Valid;
  }

  // ---------------------------------------------------------------------------
  // Guarantees
  // ---------------------------------------------------------------------------

  lemma NoComma(key: string, value: string)
    requires ',' !in key && ',' !in value
    ensures ',' !in key + ("=" + value)
  {
  }

  lemma PartRead(lib: Library, parts: map<string, string>, key: string, value: string)
    requires Bare(lib, key) && Bare(lib, value)
    ensures WithPart(lib, parts, key + ("=" + value)) == parts[key := value]
  {
    PartitionJoined(key, '=', value);
    assert ['='] + value == "=" + value;
  }

  /** The parser undoes the printer. */
  lemma HeaderParts(lib: Library, secret: string, timestamp: int, body: Bytes)
    requires Faithful(lib) && Prints(lib, timestamp)
    ensures PartsOf(lib, Split(BuildSignatureHeader(lib, secret, timestamp, body), ',')) ==
            map["t" := lib.toText(timestamp), "v1" := SignPayload(lib, secret, timestamp, body)]
  {
    var t, sig := lib.toText(timestamp), SignPayload(lib, secret, timestamp, body);
    var a, b := "t" + ("=" + t), "v1" + ("=" + sig);
    var header := BuildSignatureHeader(lib, secret, timestamp, body);
    assert header == a + ([','] + b);
    NoComma("t", t);
    NoComma("v1", sig);
    PartitionJoined(a, ',', b);
    PartitionWhole(b, ',');
    assert Split(b, ',') == [b];
    assert Split(header, ',') == [a, b];
    PartRead(lib, map[], "t", t);
    PartRead(lib, map["t" := t], "v1", sig);
    assert [a, b][..1] == [a] && [a][..0] == [];
    assert PartsOf(lib, []) == map[];
    assert PartsOf(lib, [a]) == WithPart(lib, map[], a);
    assert PartsOf(lib, [a, b]) == WithPart(lib, PartsOf(lib, [a]), b);
  }

  lemma HeaderText(lib: Library, secret: string, timestamp: int, body: Bytes)
    ensures BuildSignatureHeader(lib, secret, timestamp, body) ==
            "t=" + lib.toText(timestamp) + ",v1=" + lib.hmac(secret, lib.toText(timestamp) + "." + body)
  {
    var text := lib.toText(timestamp);
    assert text + ("." + body) == text + "." + body;
    var digest := lib.hmac(secret, text + "." + body);
    assert ("t=" + text) + ("," + ("v1=" + digest)) == "t=" + text + ",v1=" + digest;
  }

  /** Verifying a built header accepts exactly inside the replay window, and says "too old" outside it. */
  lemma HeaderRoundTrip(lib: Library, secret: string, timestamp: int, body: Bytes, now: real)
    requires Faithful(lib) && Prints(lib, timestamp)
    ensures BuildSignatureHeader(lib, secret, timestamp, body) != ""
    ensures BuildSignatureHeader(lib, secret, timestamp, body) ==
            "t=" + lib.toText(timestamp) + ",v1=" + lib.hmac(secret, lib.toText(timestamp) + "." + body)
    ensures Verdicts(lib, secret, Some(BuildSignatureHeader(lib, secret, timestamp, body)), body, now) ==
            if Abs(now - timestamp as real) <= MAX_AGE as real then Valid else TooOld
  {
    HeaderParts(lib, secret, timestamp, body);
    assert BuildSignatureHeader(lib, secret, timestamp, body)[0] == 't';
    HeaderText(lib, secret, timestamp, body);
  }

  /** A body is accepted under a header built for another one only if the two digests agree. */
  lemma OtherBody(lib: Library, secret: string, timestamp: int, body: Bytes, other: Bytes, now: real)
    requires Faithful(lib) && Prints(lib, timestamp)
    ensures Verdicts(lib, secret, Some(BuildSignatureHeader(lib, secret, timestamp, body)), other, now) == Valid <==>
            && Abs(now - timestamp as real) <= MAX_AGE as real
            && SignPayload(lib, secret, timestamp, other) == SignPayload(lib, secret, timestamp, body)
  {
    HeaderParts(lib, secret, timestamp, body);
    assert BuildSignatureHeader(lib, secret, timestamp, body)[0] == 't';
  }

  /** The signed string determines the timestamp and the body. */
  lemma CanonicalInjective(lib: Library, t: int, body: Bytes, t': int, body': Bytes)
    requires Prints(lib, t) && Prints(lib, t') && Canonical(lib, t, body) == Canonical(lib, t', body')
    ensures t == t' && body == body'
  {
    PartitionJoined(lib.toText(t), '.', body);
    PartitionJoined(lib.toText(t'), '.', body');
    assert ['.'] + body == "." + body && ['.'] + body' == "." + body';
    assert lib.toInt(lib.toText(t)) == lib.toInt(lib.toText(t'));
  }
}
