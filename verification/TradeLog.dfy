/**
 * The event log as an oracle: what the producer writes (producer/trades.py), what a bank parses, what
 * the SQL aggregate makes of the same payloads, and the reconciliation that diffs a bank against it
 * (app/services/showcase_ledger.py).
 */
module TradeLog {
  import opened Prelude
  import opened Ledger
  import opened Text

  /** A JSON field: absent or null, a string, or something else with its Python and its SQL text. */
  datatype Field = Missing | Str(text: string) | NonStr(py: string, sql: string)

  datatype Payload = Payload(account: Field, side: Field, amount: Field, executedAt: Field, symbol: string)

  /** What `datetime.fromisoformat` returns: a point in time, if the text carries an offset. */
  datatype Moment = Moment(instant: Instant, aware: bool)

  /** Library calls: `Decimal(text)`, `datetime.fromisoformat(text)` (None when they raise) and `str.strip`. */
  datatype Library = Library(decimal: string -> Option<real>, fromIso: string -> Option<Moment>,
                             strip: string -> string)

  function PyText(f: Field): string {
    match f
    case Missing => "None"
    case Str(t) => t
    case NonStr(py, _) => py
  }

  /** `payload->>'field'`. */
  function SqlText(f: Field): Option<string> {
    match f
    case Missing => None
    case Str(t) => Some(t)
    case NonStr(_, sql) => Some(sql)
  }

  // ---------------------------------------------------------------------------
  // Money
  // ---------------------------------------------------------------------------

  /** To cents, half to even. */
  function Quantize(x: real): Cents {
    var scaled := x * 100.0;
    var f := scaled.Floor;
    var rest := scaled - f as real;
    if rest < 0.5 then f else if rest > 0.5 then f + 1 else if f % 2 == 0 then f else f + 1
  }

  const TEN_TO_28 := 10_000_000_000_000_000_000_000_000_000

  /** `quantize` raises beyond the 28 digits of the decimal context. */
  predicate Fits(c: Cents) {
    -TEN_TO_28 < c < TEN_TO_28
  }

  function MoneyText(c: Cents): string {
    var n: nat := if c < 0 then -c else c;
    (if c < 0 then "-" else "") + (ToText(n / 100) + ("." + Two(n % 100)))
  }

  /** The first '.' in `s`, or its length. */
  function Dot(s: string): (k: nat)
    ensures k <= |s| && (k < |s| ==> s[k] == '.') && forall i :: 0 <= i < k ==> s[i] != '.'
  {
    if s == "" || s[0] == '.' then 0 else 1 + Dot(s[1..])
  }

  /** The pattern `^[0-9]+(\.[0-9]+)?$`. */
  predicate Plain(s: string) {
    var k := Dot(s);
    && k >= 1 && AllDigits(s[..k])
    && (k == |s| || (k + 1 < |s| && AllDigits(s[k + 1..])))
  }

  /** One digit or more; then nothing, or a point and one digit or more. */
  lemma PlainIff(s: string)
    ensures Plain(s) <==>
            || (s != "" && forall i :: 0 <= i < |s| ==> '0' <= s[i] <= '9')
            || exists k :: 0 < k < |s| - 1 && s[k] == '.' &&
                 forall i :: 0 <= i < |s| && i != k ==> '0' <= s[i] <= '9'
  {
    if Plain(s) && Dot(s) < |s| {
      var k := Dot(s);
      forall i | 0 <= i < |s| && i != k ensures '0' <= s[i] <= '9' {
        if i < k {
          assert s[..k][i] == s[i];
        } else {
          assert s[k + 1..][i - k - 1] == s[i];
        }
      }
    }
  }

  /** The digits after the point. */
  function Fraction(digits: string): real
    requires AllDigits(digits)
  {
    Power10Positive(|digits|);
    ToNat(digits) as real / Power10(|digits|) as real
  }

  function Value(s: string): real
    requires Plain(s)
  {
    var k := Dot(s);
    if k == |s| then ToNat(s) as real else ToNat(s[..k]) as real + Fraction(s[k + 1..])
  }

  lemma {:induction false} DotOfDigits(a: string, b: string)
    requires AllDigits(a)
    ensures Dot(a + ("." + b)) == |a|
  {
    if a == "" {
      assert a + ("." + b) == "." + b;
    } else {
      DotOfDigits(a[1..], b);
      assert (a + ("." + b))[1..] == a[1..] + ("." + b);
    }
  }

  lemma ValueOfParts(a: string, b: string)
    requires AllDigits(a) && AllDigits(b) && a != "" && b != ""
    ensures Plain(a + ("." + b)) && Value(a + ("." + b)) == ToNat(a) as real + Fraction(b)
  {
    var s := a + ("." + b);
    DotOfDigits(a, b);
    assert s[..|a|] == a && s[|a| + 1..] == b;
  }

  lemma FractionOfTwo(n: nat)
    requires n < 100
    ensures Fraction(Two(n)) == n as real / 100.0
  {
    assert Power10(2) == 100 by { PowersOf10(); }
  }

  lemma MoneyTextParts(c: Cents)
    requires c >= 0
    ensures MoneyText(c) == ToText(c / 100) + ("." + Two(c % 100))
  {
  }

  lemma CentsSplit(c: nat)
    ensures (c / 100) as real + (c % 100) as real / 100.0 == c as real / 100.0
  {
    assert c == c / 100 * 100 + c % 100;
    assert c as real == (c / 100) as real * 100.0 + (c % 100) as real;
  }

  /** Printing an amount and reading it back as a plain numeral loses nothing. */
  lemma MoneyRoundTrip(c: Cents)
    requires c >= 0
    ensures Plain(MoneyText(c)) && Value(MoneyText(c)) == c as real / 100.0
  {
    ValueOfParts(ToText(c / 100), Two(c % 100));
    FractionOfTwo(c % 100);
    CentsSplit(c);
    MoneyTextParts(c);
  }

  lemma QuantizeExact(c: Cents)
    ensures Quantize(c as real / 100.0) == c
  {
    assert c as real / 100.0 * 100.0 == c as real;
  }

  // ---------------------------------------------------------------------------
  // The bank's parser, and the producer
  // ---------------------------------------------------------------------------

  function ParseTrade(lib: Library, p: Payload): Option<Trade> {
    if !p.account.Str? || p.account.text == "" || (p.side != Str("buy") && p.side != Str("sell")) then None
    else
      var amount := lib.decimal(PyText(p.amount));
      var at := lib.fromIso(PyText(p.executedAt));
      if amount == None || !Fits(Quantize(amount.value)) || at == None then None
      else
        var cents := Quantize(amount.value);
        if cents < 0 || !at.value.aware then None
        else
          var description := lib.strip(p.side.text + " $" + MoneyText(cents) + " " + p.symbol);
          Some(Trade(p.account.text, if p.side == Str("buy") then cents else -cents, at.value.instant, description))
  }

  /** The arguments of `build_trade_event`; the side and account are the producer's choice. */
  datatype Order = Order(account: Account, symbol: string, price: real, buy: bool, quantity: real, now: Utc)

  /** A trade as it is written down, its amount already in cents. */
  datatype Entry = Entry(account: Account, symbol: string, buy: bool, amount: Cents, now: Utc)

  predicate Proper(x: Entry) {
    x.account != "" && 0 <= x.amount && Fits(x.amount) && ValidUtc(x.now)
  }

  /** What the producer writes at positive prices. */
  type Sale = x: Entry | Proper(x) witness Entry("alice", "BTC-USD", true, 0, Utc(2026, 1, 1, 0, 0, 0, 0))

  function Worth(o: Order): real {
    o.quantity * o.price
  }

  function EntryOf(o: Order): Entry {
    Entry(o.account, o.symbol, o.buy, Quantize(Worth(o)), o.now)
  }

  function Write(x: Entry): Payload
    requires ValidUtc(x.now)
  {
    Payload(Str(x.account), Str(if x.buy then "buy" else "sell"), Str(MoneyText(x.amount)), Str(Iso(x.now)), x.symbol)
  }

  /** None when quantizing raises. */
  function BuildTradeEvent(o: Order): Option<Payload>
    requires ValidUtc(o.now)
  {
    if Fits(EntryOf(o).amount) then Some(Write(EntryOf(o))) else None
  }

  lemma QuantizeNonnegative(x: real)
    requires x >= 0.0
    ensures Quantize(x) >= 0
  {
  }

  /** At a positive price the producer only writes proper sales. */
  lemma PositivePriceIsProper(o: Order)
    requires o.account != "" && o.price > 0.0 && o.quantity >= 0.0 && ValidUtc(o.now) && Fits(EntryOf(o).amount)
    ensures Proper(EntryOf(o)) && BuildTradeEvent(o) == Some(Write(EntryOf(o)))
  {
    QuantizeNonnegative(Worth(o));
  }

  /** What is assumed of the library: plain numerals have their value, and ISO text is read as it was written. */
  ghost predicate Faithful(lib: Library) {
    && (forall s :: Plain(s) ==> lib.decimal(s) == Some(Value(s)))
    && (forall u :: ValidUtc(u) ==> lib.fromIso(Iso(u)) == Some(Moment(Index(u), true)))
  }

  /** Such a library exists. */
  lemma FaithfulExists() returns (lib: Library)
    ensures Faithful(lib)
  {
    lib := Library(s => if Plain(s) then Some(Value(s)) else None,
                   s => match ReadUtc(s) case None => None case Some(u) => Some(Moment(Index(u), true)),
                   s => s);
    forall u | ValidUtc(u) ensures lib.fromIso(Iso(u)) == Some(Moment(Index(u), true)) {
      IsoRoundTrip(u);
    }
  }

  lemma LibraryReads(lib: Library, amount: Cents, now: Utc)
    requires Faithful(lib) && amount >= 0 && ValidUtc(now)
    ensures lib.decimal(MoneyText(amount)) == Some(amount as real / 100.0)
    ensures Quantize(amount as real / 100.0) == amount
    ensures lib.fromIso(Iso(now)) == Some(Moment(Index(now), true))
  {
    MoneyRoundTrip(amount);
    QuantizeExact(amount);
  }

  /** A producer-built trade means to the bank what the producer meant. */
  lemma ParseBuilt(lib: Library, x: Sale)
    requires Faithful(lib)
    ensures ParseTrade(lib, Write(x)).Some?
    ensures var t := ParseTrade(lib, Write(x)).value;
      && t.account == x.account && t.executedAt == Index(x.now) && t.delta == (if x.buy then x.amount else -x.amount)
  {
    LibraryReads(lib, x.amount, x.now);
  }

  lemma DescribedAs(lib: Library, p: Payload, cents: Cents)
    requires ParseTrade(lib, p).Some? && Quantize(lib.decimal(PyText(p.amount)).value) == cents
    ensures ParseTrade(lib, p).value.description ==
            lib.strip(p.side.text + " $" + MoneyText(cents) + " " + p.symbol)
  {
  }

  /** The bank's description of it: the side, the amount in dollars and cents, and the symbol. */
  lemma BuiltDescription(lib: Library, x: Sale)
    requires Faithful(lib)
    ensures ParseTrade(lib, Write(x)).Some?
    ensures ParseTrade(lib, Write(x)).value.description ==
            lib.strip((if x.buy then "buy" else "sell") + " $" + MoneyText(x.amount) + " " + x.symbol)
  {
    LibraryReads(lib, x.amount, x.now);
    ParseBuilt(lib, x);
    DescribedAs(lib, Write(x), x.amount);
  }

  /** Less than half a cent, or half a cent that goes to the even side. */
  predicate RoundsAway(gap: real, sum: Cents) {
    -0.005 < gap < 0.005 || ((gap == 0.005 || gap == -0.005) && sum % 2 == 0)
  }

  lemma QuantizeIff(x: real, c: Cents)
    ensures Quantize(x) == c <==> RoundsAway(x - c as real / 100.0, c)
  {
    var scaled := x * 100.0;
    var rest := scaled - scaled.Floor as real;
    assert x - c as real / 100.0 == (scaled - c as real) / 100.0;
    assert scaled - c as real == (scaled.Floor - c) as real + rest;
  }

  lemma HalfCent(worth: real)
    ensures -0.005 <= worth - Quantize(worth) as real / 100.0 <= 0.005
  {
    QuantizeIff(worth, Quantize(worth));
  }

  lemma FitsIff(c: Cents)
    ensures Fits(c) <==> -10_000_000_000_000_000_000_000_000_000 < c < 10_000_000_000_000_000_000_000_000_000
  {
  }

  lemma BuiltReachesBank(lib: Library, o: Order)
    requires Faithful(lib) && o.account != "" && o.price > 0.0 && o.quantity >= 0.0 && ValidUtc(o.now)
    requires BuildTradeEvent(o).Some?
    ensures var trade := ParseTrade(lib, BuildTradeEvent(o).value);
      && trade.Some? && trade.value.account == o.account && trade.value.executedAt == Index(o.now)
      && trade.value.delta == if o.buy then EntryOf(o).amount else -EntryOf(o).amount
  {
    PositivePriceIsProper(o);
    ParseBuilt(lib, EntryOf(o));
  }

  lemma WorthIs(o: Order, worth: real)
    requires worth == o.quantity * o.price && o.price > 0.0 && o.quantity >= 0.0
    ensures Worth(o) == worth && worth >= 0.0
  {
  }

  lemma AmountOf(o: Order, worth: real)
    requires worth == Worth(o)
    ensures -0.005 <= worth - EntryOf(o).amount as real / 100.0 <= 0.005
  {
    HalfCent(worth);
  }

  lemma AmountTooLong(o: Order)
    requires Worth(o) >= 0.0 && ValidUtc(o.now)
    ensures BuildTradeEvent(o) == None <==> EntryOf(o).amount >= 10_000_000_000_000_000_000_000_000_000
  {
    QuantizeNonnegative(Worth(o));
    FitsIff(EntryOf(o).amount);
  }

  /**
   * An order reaches the bank with its account, its time, and its value, signed, to half a cent; but the
   * producer raises when the amount in cents has more than 28 digits.
   */
  lemma OrderReachesBank(lib: Library, o: Order, worth: real)
    requires Faithful(lib) && o.account != "" && o.price > 0.0 && o.quantity >= 0.0 && ValidUtc(o.now)
    requires worth == o.quantity * o.price
    ensures BuildTradeEvent(o) == None <==> EntryOf(o).amount >= 10_000_000_000_000_000_000_000_000_000
    ensures -0.005 <= worth - EntryOf(o).amount as real / 100.0 <= 0.005
    ensures BuildTradeEvent(o).Some? ==>
              var trade := ParseTrade(lib, BuildTradeEvent(o).value);
              && trade.Some? && trade.value.account == o.account && trade.value.executedAt == Index(o.now)
              && trade.value.delta == if o.buy then EntryOf(o).amount else -EntryOf(o).amount
  {
    WorthIs(o, worth);
    AmountOf(o, worth);
    AmountTooLong(o);
    if BuildTradeEvent(o).Some? {
      BuiltReachesBank(lib, o);
    }
  }

  // ---------------------------------------------------------------------------
  // The SQL aggregate
  // ---------------------------------------------------------------------------

  /** The WHERE clause. */
  predicate Counted(p: Payload) {
    SqlText(p.account).Some? && SqlText(p.amount).Some? && Plain(SqlText(p.amount).value)
  }

  predicate CountedFor(p: Payload, a: Account) {
    Counted(p) && SqlText(p.account).value == a
  }

  /** Everything but a sell adds. */
  function Signed(p: Payload): real
    requires Counted(p)
  {
    if SqlText(p.side) == Some("sell") then -Value(SqlText(p.amount).value) else Value(SqlText(p.amount).value)
  }

  function SqlSum(log: seq<Payload>, a: Account): real {
    if log == [] then 0.0
    else
      var p := log[|log| - 1];
      SqlSum(log[..|log| - 1], a) + (if CountedFor(p, a) then Signed(p) else 0.0)
  }

  function SqlCount(log: seq<Payload>, a: Account): nat {
    if log == [] then 0
    else SqlCount(log[..|log| - 1], a) + (if CountedFor(log[|log| - 1], a) then 1 else 0)
  }

  /** MAX over text, nulls ignored, in code-point order. */
  function SqlMax(log: seq<Payload>, a: Account): Option<string> {
    if log == [] then None
    else
      var p, before := log[|log| - 1], SqlMax(log[..|log| - 1], a);
      if !CountedFor(p, a) || SqlText(p.executedAt) == None then before
      else if before == None || Cmp(before.value, SqlText(p.executedAt).value) < 0 then SqlText(p.executedAt)
      else before
  }

  function SqlAccounts(log: seq<Payload>): set<Account> {
    set i | 0 <= i < |log| && Counted(log[i]) :: SqlText(log[i].account).value
  }

  // ---------------------------------------------------------------------------
  // The oracle agrees with the parser
  // ---------------------------------------------------------------------------

  function Built(sales: seq<Sale>): (log: seq<Payload>)
    ensures |log| == |sales|
  {
    if sales == [] then [] else Built(sales[..|sales| - 1]) + [Write(sales[|sales| - 1])]
  }

  lemma {:induction false} BuiltAt(sales: seq<Sale>, i: nat)
    requires i < |sales|
    ensures Built(sales)[i] == Write(sales[i])
  {
    if i < |sales| - 1 {
      BuiltAt(sales[..|sales| - 1], i);
    }
  }

  /** The trades a bank recognises in the log. */
  function Parsed(lib: Library, log: seq<Payload>): seq<Trade> {
    if log == [] then []
    else
      var t := ParseTrade(lib, log[|log| - 1]);
      Parsed(lib, log[..|log| - 1]) + (if t == None then [] else [t.value])
  }

  function CountFor(trades: seq<Trade>, a: Account): nat {
    if trades == [] then 0
    else CountFor(trades[..|trades| - 1], a) + (if trades[|trades| - 1].account == a then 1 else 0)
  }

  lemma CountedBuilt(x: Sale, a: Account)
    ensures Counted(Write(x)) && (CountedFor(Write(x), a) <==> x.account == a)
    ensures Signed(Write(x)) == (if x.buy then x.amount else -x.amount) as real / 100.0
  {
    MoneyRoundTrip(x.amount);
  }

  /** The aggregate and the parser see the same amount for the same account. */
  predicate Alike(lib: Library, p: Payload, a: Account) {
    && ParseTrade(lib, p).Some?
    && (CountedFor(p, a) <==> ParseTrade(lib, p).value.account == a)
    && (CountedFor(p, a) ==> Signed(p) == ParseTrade(lib, p).value.delta as real / 100.0)
  }

  lemma SaleAlike(lib: Library, x: Sale, a: Account)
    requires Faithful(lib)
    ensures Alike(lib, Write(x), a)
  {
    ParseBuilt(lib, x);
    CountedBuilt(x, a);
  }

  /** Payloads that all parse are recognised one by one. */
  lemma {:induction false} ParsedAll(lib: Library, log: seq<Payload>, trades: seq<Trade>)
    requires |log| == |trades| && forall i :: 0 <= i < |log| ==> ParseTrade(lib, log[i]) == Some(trades[i])
    ensures Parsed(lib, log) == trades
  {
    if log != [] {
      var n := |log| - 1;
      ParsedAll(lib, log[..n], trades[..n]);
      assert trades == trades[..n] + [trades[n]];
    }
  }

  lemma AddCents(x: Cents, y: Cents)
    ensures x as real / 100.0 + y as real / 100.0 == (x + y) as real / 100.0
  {
  }

  lemma ParsedSnoc(lib: Library, log: seq<Payload>, p: Payload, a: Account)
    requires ParseTrade(lib, p).Some?
    ensures var t := ParseTrade(lib, p).value;
      && Parsed(lib, log + [p]) == Parsed(lib, log) + [t]
      && Sum(Parsed(lib, log + [p]), a) == Sum(Parsed(lib, log), a) + (if t.account == a then t.delta else 0)
      && CountFor(Parsed(lib, log + [p]), a) == CountFor(Parsed(lib, log), a) + (if t.account == a then 1 else 0)
  {
    var t := ParseTrade(lib, p).value;
    assert (log + [p])[..|log|] == log;
    assert (Parsed(lib, log) + [t])[..|Parsed(lib, log)|] == Parsed(lib, log);
  }

  lemma SqlSnoc(log: seq<Payload>, p: Payload, a: Account)
    ensures SqlSum(log + [p], a) == SqlSum(log, a) + (if CountedFor(p, a) then Signed(p) else 0.0)
    ensures SqlCount(log + [p], a) == SqlCount(log, a) + (if CountedFor(p, a) then 1 else 0)
  {
    assert (log + [p])[..|log|] == log;
  }

  lemma AlikeSnoc(lib: Library, log: seq<Payload>, p: Payload, a: Account)
    requires Alike(lib, p, a)
    requires SqlSum(log, a) == Sum(Parsed(lib, log), a) as real / 100.0
    requires SqlCount(log, a) == CountFor(Parsed(lib, log), a)
    ensures |Parsed(lib, log + [p])| == |Parsed(lib, log)| + 1
    ensures SqlSum(log + [p], a) == Sum(Parsed(lib, log + [p]), a) as real / 100.0
    ensures SqlCount(log + [p], a) == CountFor(Parsed(lib, log + [p]), a)
  {
    ParsedSnoc(lib, log, p, a);
    SqlSnoc(log, p, a);
    AddCents(Sum(Parsed(lib, log), a), ParseTrade(lib, p).value.delta);
  }

  predicate AllAlike(lib: Library, log: seq<Payload>, a: Account) {
    log == [] || (AllAlike(lib, log[..|log| - 1], a) && Alike(lib, log[|log| - 1], a))
  }

  lemma {:induction false} BuiltAlike(lib: Library, sales: seq<Sale>, a: Account)
    requires Faithful(lib)
    ensures AllAlike(lib, Built(sales), a)
  {
    if sales != [] {
      var n := |sales| - 1;
      BuiltAlike(lib, sales[..n], a);
      SaleAlike(lib, sales[n], a);
      assert Built(sales)[..n] == Built(sales[..n]);
    }
  }

  lemma {:induction false} AlikeAgrees(lib: Library, log: seq<Payload>, a: Account)
    requires AllAlike(lib, log, a)
    ensures |Parsed(lib, log)| == |log|
    ensures SqlSum(log, a) == Sum(Parsed(lib, log), a) as real / 100.0
    ensures SqlCount(log, a) == CountFor(Parsed(lib, log), a)
  {
    if log != [] {
      var before, p := log[..|log| - 1], log[|log| - 1];
      assert before + [p] == log;
      AlikeAgrees(lib, before, a);
      AlikeSnoc(lib, before, p, a);
    }
  }

  lemma AlikeRounds(lib: Library, log: seq<Payload>, a: Account)
    requires AllAlike(lib, log, a)
    ensures |Parsed(lib, log)| == |log|
    ensures SqlSum(log, a) == Sum(Parsed(lib, log), a) as real / 100.0
    ensures Quantize(SqlSum(log, a)) == Sum(Parsed(lib, log), a)
    ensures SqlCount(log, a) == CountFor(Parsed(lib, log), a)
  {
    AlikeAgrees(lib, log, a);
    QuantizeExact(Sum(Parsed(lib, log), a));
  }

  /**
   * On every list of producer-built trades, the SQL aggregate gives each account the sum, and the
   * count, of what the bank's parser recognises.
   */
  lemma OracleAgrees(lib: Library, sales: seq<Sale>, a: Account)
    requires Faithful(lib)
    ensures |Parsed(lib, Built(sales))| == |sales|
    ensures SqlSum(Built(sales), a) == Sum(Parsed(lib, Built(sales)), a) as real / 100.0
    ensures Quantize(SqlSum(Built(sales), a)) == Sum(Parsed(lib, Built(sales)), a)
    ensures SqlCount(Built(sales), a) == CountFor(Parsed(lib, Built(sales)), a)
  {
    BuiltAlike(lib, sales, a);
    AlikeRounds(lib, Built(sales), a);
  }

  /** Payload `k` counts for `a` and has a greatest timestamp text among those that do. */
  predicate IsGreatest(log: seq<Payload>, a: Account, k: nat) {
    && k < |log| && CountedFor(log[k], a) && SqlText(log[k].executedAt).Some?
    && forall i :: 0 <= i < |log| && CountedFor(log[i], a) && SqlText(log[i].executedAt).Some? ==>
         Cmp(SqlText(log[i].executedAt).value, SqlText(log[k].executedAt).value) <= 0
  }

  lemma GreaterStill(log: seq<Payload>, a: Account, k: nat, text: string)
    requires IsGreatest(log, a, k) && Cmp(SqlText(log[k].executedAt).value, text) < 0
    ensures forall i :: 0 <= i < |log| && CountedFor(log[i], a) && SqlText(log[i].executedAt).Some? ==>
              Cmp(SqlText(log[i].executedAt).value, text) <= 0
  {
    forall i | 0 <= i < |log| && CountedFor(log[i], a) && SqlText(log[i].executedAt).Some?
      ensures Cmp(SqlText(log[i].executedAt).value, text) <= 0
    {
      CmpTransitive(SqlText(log[i].executedAt).value, SqlText(log[k].executedAt).value, text);
    }
  }

  lemma {:induction false} MaxIsGreatest(log: seq<Payload>, a: Account) returns (k: nat)
    ensures SqlMax(log, a) == None ==>
              forall i :: 0 <= i < |log| && CountedFor(log[i], a) ==> SqlText(log[i].executedAt) == None
    ensures SqlMax(log, a) != None ==> IsGreatest(log, a, k) && SqlMax(log, a) == SqlText(log[k].executedAt)
  {
    k := 0;
    if log != [] {
      var n := |log| - 1;
      k := MaxIsGreatest(log[..n], a);
      assert forall i :: 0 <= i < n ==> log[..n][i] == log[i];
      if CountedFor(log[n], a) && SqlText(log[n].executedAt).Some? {
        var text := SqlText(log[n].executedAt).value;
        CmpSelf(text);
        if SqlMax(log[..n], a) == None {
          k := n;
        } else if Cmp(SqlMax(log[..n], a).value, text) < 0 {
          GreaterStill(log[..n], a, k, text);
          k := n;
        } else {
          CmpAntisymmetric(SqlMax(log[..n], a).value, text);
        }
      }
    }
  }

  /** Sale `k` is a chronologically latest one of account `a`. */
  predicate IsLatestSale(sales: seq<Sale>, a: Account, k: nat) {
    k < |sales| && sales[k].account == a
    && forall i :: 0 <= i < |sales| && sales[i].account == a ==> Index(sales[i].now) <= Index(sales[k].now)
  }

  lemma CountedAt(sales: seq<Sale>, i: nat, a: Account)
    requires i < |sales|
    ensures CountedFor(Built(sales)[i], a) <==> sales[i].account == a
    ensures Built(sales)[i].executedAt == Str(Iso(sales[i].now))
  {
    BuiltAt(sales, i);
    CountedBuilt(sales[i], a);
  }

  lemma NotLater(log: seq<Payload>, a: Account, k: nat, i: nat, x: Sale, y: Sale)
    requires IsGreatest(log, a, k) && i < |log| && CountedFor(log[i], a)
    requires log[i].executedAt == Str(Iso(x.now)) && log[k].executedAt == Str(Iso(y.now))
    ensures Index(x.now) <= Index(y.now)
  {
    IsoOrder(x.now, y.now);
  }

  lemma LatestInTime(sales: seq<Sale>, a: Account, k: nat)
    requires IsGreatest(Built(sales), a, k)
    ensures IsLatestSale(sales, a, k) && SqlText(Built(sales)[k].executedAt) == Some(Iso(sales[k].now))
  {
    CountedAt(sales, k, a);
    forall i | 0 <= i < |sales| && sales[i].account == a ensures Index(sales[i].now) <= Index(sales[k].now) {
      CountedAt(sales, i, a);
      NotLater(Built(sales), a, k, i, sales[i], sales[k]);
    }
  }

  /** The text MAX of an account is the timestamp of its chronologically latest trade. */
  lemma MaxIsLatest(sales: seq<Sale>, a: Account) returns (k: nat)
    ensures SqlMax(Built(sales), a) == None ==> forall i :: 0 <= i < |sales| ==> sales[i].account != a
    ensures SqlMax(Built(sales), a) != None ==>
              IsLatestSale(sales, a, k) && SqlMax(Built(sales), a) == Some(Iso(sales[k].now))
  {
    k := MaxIsGreatest(Built(sales), a);
    if SqlMax(Built(sales), a) == None {
      forall i | 0 <= i < |sales| ensures sales[i].account != a {
        CountedAt(sales, i, a);
      }
    } else {
      LatestInTime(sales, a, k);
    }
  }

  // ---------------------------------------------------------------------------
  // Exactly when they agree, on any payload
  // ---------------------------------------------------------------------------

  /** What the payload adds to account `a` in the aggregate ... */
  function SqlPart(p: Payload, a: Account): real {
    if CountedFor(p, a) then Signed(p) else 0.0
  }

  /** ... and at a bank. */
  function BankPart(lib: Library, p: Payload, a: Account): Cents {
    var t := ParseTrade(lib, p);
    if t.Some? && t.value.account == a then t.value.delta else 0
  }

  ghost predicate Agree(lib: Library, p: Payload) {
    forall a :: SqlPart(p, a) == BankPart(lib, p, a) as real / 100.0
  }

  predicate WholeCents(x: real) {
    x == Quantize(x) as real / 100.0
  }

  /** The fields a bank needs beside the amount: a named account, a side it knows, a timestamp with an offset. */
  predicate Recognised(lib: Library, p: Payload) {
    && p.account.Str? && p.account.text != ""
    && (p.side == Str("buy") || p.side == Str("sell"))
    && var at := lib.fromIso(PyText(p.executedAt));
       at.Some? && at.value.aware
  }

  /** The amount as a bank reads it, in cents; None when it is no number, too large, or negative. */
  function BankAmount(lib: Library, p: Payload): Option<Cents> {
    var amount := lib.decimal(PyText(p.amount));
    if amount == None || !Fits(Quantize(amount.value)) || Quantize(amount.value) < 0 then None
    else Some(Quantize(amount.value))
  }

  /** What a caller can check: the guard of the WHERE clause first, then those of the parser. */
  predicate AgreeGuard(lib: Library, p: Payload) {
    if Counted(p) && Value(SqlText(p.amount).value) != 0.0 then
      && Recognised(lib, p) && BankAmount(lib, p).Some?
      && BankAmount(lib, p).value as real / 100.0 == Value(SqlText(p.amount).value)
    else
      // what adds nothing to the aggregate, the bank must refuse, or read as nothing
      !Recognised(lib, p) || BankAmount(lib, p) == None || BankAmount(lib, p) == Some(0)
  }

  lemma FractionNonnegative(digits: string)
    requires AllDigits(digits)
    ensures Fraction(digits) >= 0.0
  {
    Power10Positive(|digits|);
  }

  lemma ValueNonnegative(s: string)
    requires Plain(s)
    ensures Value(s) >= 0.0
  {
    var k := Dot(s);
    if k < |s| {
      FractionNonnegative(s[k + 1..]);
    }
  }

  /** The parser accepts exactly the recognised payloads with an amount, for the account they name. */
  lemma ParsedIff(lib: Library, p: Payload)
    ensures ParseTrade(lib, p).Some? <==> Recognised(lib, p) && BankAmount(lib, p).Some?
    ensures ParseTrade(lib, p).Some? ==>
              var t := ParseTrade(lib, p).value;
              && t.account == p.account.text
              && t.delta == (if p.side == Str("buy") then BankAmount(lib, p).value else -BankAmount(lib, p).value)
              && t.executedAt == lib.fromIso(PyText(p.executedAt)).value.instant
  {
  }

  /** The refusals of the parser, one by one: name, side, amount, and a time with its offset. */
  lemma ParsedExactly(lib: Library, p: Payload)
    ensures var amount, at := lib.decimal(PyText(p.amount)), lib.fromIso(PyText(p.executedAt));
      ParseTrade(lib, p).Some? <==>
        && p.account.Str? && p.account.text != ""
        && p.side.Str? && p.side.text in {"buy", "sell"}
        && amount.Some? && 0 <= Quantize(amount.value) && Fits(Quantize(amount.value))
        && at.Some? && at.value.aware
  {
  }

  /** Accounts other than the one that the payload names get nothing on either side. */
  lemma OtherAccounts(lib: Library, p: Payload, a: Account)
    requires SqlText(p.account) != Some(a)
    ensures SqlPart(p, a) == 0.0 && BankPart(lib, p, a) == 0
  {
    ParsedIff(lib, p);
  }

  /** The amount that the aggregate reads, and the one that a bank moves. */
  function SqlAmount(p: Payload): real {
    if Counted(p) then Value(SqlText(p.amount).value) else 0.0
  }

  function BankMoves(lib: Library, p: Payload): Cents {
    if Recognised(lib, p) && BankAmount(lib, p).Some? then BankAmount(lib, p).value else 0
  }

  predicate SameAmount(lib: Library, p: Payload) {
    SqlAmount(p) == BankMoves(lib, p) as real / 100.0
  }

  lemma NamedAccount(lib: Library, p: Payload, a: Account)
    requires SqlText(p.account) == Some(a)
    ensures SqlPart(p, a) == BankPart(lib, p, a) as real / 100.0 <==> SameAmount(lib, p)
  {
    ParsedIff(lib, p);
    if Counted(p) {
      ValueNonnegative(SqlText(p.amount).value);
    }
  }

  /** Whatever the payload and the library, both agree on every account if and only if they read the same amount. */
  lemma AgreeIffSameAmount(lib: Library, p: Payload)
    ensures Agree(lib, p) <==> SameAmount(lib, p)
  {
    if SqlText(p.account) == None {
      forall a ensures SqlPart(p, a) == BankPart(lib, p, a) as real / 100.0 {
        OtherAccounts(lib, p, a);
      }
    } else {
      var b := SqlText(p.account).value;
      NamedAccount(lib, p, b);
      forall a | a != b ensures SqlPart(p, a) == BankPart(lib, p, a) as real / 100.0 {
        OtherAccounts(lib, p, a);
      }
    }
  }

  lemma SameAmountIff(lib: Library, p: Payload)
    ensures SameAmount(lib, p) <==> AgreeGuard(lib, p)
  {
    if Counted(p) {
      ValueNonnegative(SqlText(p.amount).value);
    }
  }

  /**
   * In terms of the guards: they agree if and only if the payload is counted with an amount, and is
   * recognised with that amount in whole cents; or it adds nothing to the aggregate, and is refused or
   * read as nothing.
   */
  lemma AgreeIff(lib: Library, p: Payload)
    ensures Agree(lib, p) <==> AgreeGuard(lib, p)
  {
    AgreeIffSameAmount(lib, p);
    SameAmountIff(lib, p);
  }

  /** The amount has one text; strings do, a JSON number may be spelled differently by SQL and Python. */
  predicate OneText(p: Payload) {
    p.amount.NonStr? ==> p.amount.py == p.amount.sql
  }

  /** For an amount with one text the guard needs no reading by the bank: whole cents, within the precision. */
  lemma GuardOfOneText(lib: Library, p: Payload)
    requires Faithful(lib) && OneText(p) && Counted(p)
    ensures var v := Value(SqlText(p.amount).value);
      AgreeGuard(lib, p) <==> v == 0.0 || (Recognised(lib, p) && Fits(Quantize(v)) && WholeCents(v))
  {
    var v := Value(SqlText(p.amount).value);
    ValueNonnegative(SqlText(p.amount).value);
    QuantizeNonnegative(v);
    assert lib.decimal(PyText(p.amount)) == Some(v);
    assert v == 0.0 ==> Quantize(v) == 0;
  }

  /** What the aggregate and the bank's sum make of a log, before rounding, differ by. */
  function Gap(lib: Library, log: seq<Payload>, a: Account): real {
    SqlSum(log, a) - Sum(Parsed(lib, log), a) as real / 100.0
  }

  lemma GapSnoc(lib: Library, log: seq<Payload>, p: Payload, a: Account)
    ensures Gap(lib, log + [p], a) == Gap(lib, log, a) + SqlPart(p, a) - BankPart(lib, p, a) as real / 100.0
  {
    SqlSnoc(log, p, a);
    assert (log + [p])[..|log|] == log;
    var t := ParseTrade(lib, p);
    if t == None {
      assert Parsed(lib, log + [p]) == Parsed(lib, log) + [] == Parsed(lib, log);
    } else {
      ParsedSnoc(lib, log, p, a);
    }
    AddCents(Sum(Parsed(lib, log), a), BankPart(lib, p, a));
  }

  /** The aggregate is right for every account after each of the first `n` events. */
  ghost predicate RightThroughout(lib: Library, log: seq<Payload>, n: nat)
    requires n <= |log|
  {
    forall k, a :: 0 <= k <= n ==> Gap(lib, log[..k], a) == 0.0
  }

  lemma GapStep(lib: Library, log: seq<Payload>, k: nat, a: Account)
    requires k < |log|
    ensures Gap(lib, log[..k + 1], a) ==
            Gap(lib, log[..k], a) + SqlPart(log[k], a) - BankPart(lib, log[k], a) as real / 100.0
  {
    GapSnoc(lib, log[..k], log[k], a);
    assert log[..k + 1] == log[..k] + [log[k]];
  }

  lemma NoEventsNoGap(lib: Library, a: Account)
    ensures Gap(lib, [], a) == 0.0
  {
  }

  lemma {:induction false} AgreeingIsRight(lib: Library, log: seq<Payload>, k: nat, a: Account)
    requires k <= |log| && forall i :: 0 <= i < k ==> Agree(lib, log[i])
    ensures Gap(lib, log[..k], a) == 0.0
  {
    if k == 0 {
      assert log[..0] == [];
      NoEventsNoGap(lib, a);
    } else {
      AgreeingIsRight(lib, log, k - 1, a);
      GapStep(lib, log, k - 1, a);
    }
  }

  /**
   * On any log, the oracle's aggregate, before rounding, equals the bank's sum for every account after
   * every event if and only if every payload passes the guard.
   */
  lemma LogAgreesIff(lib: Library, log: seq<Payload>)
    ensures RightThroughout(lib, log, |log|) <==> forall i :: 0 <= i < |log| ==> AgreeGuard(lib, log[i])
  {
    if forall i :: 0 <= i < |log| ==> AgreeGuard(lib, log[i]) {
      forall i | 0 <= i < |log| ensures Agree(lib, log[i]) {
        AgreeIff(lib, log[i]);
      }
      forall k, a | 0 <= k <= |log| ensures Gap(lib, log[..k], a) == 0.0 {
        AgreeingIsRight(lib, log, k, a);
      }
    } else {
      var i :| 0 <= i < |log| && !AgreeGuard(lib, log[i]);
      AgreeIff(lib, log[i]);
      var a :| SqlPart(log[i], a) != BankPart(lib, log[i], a) as real / 100.0;
      GapStep(lib, log, i, a);
      assert Gap(lib, log[..i], a) != 0.0 || Gap(lib, log[..i + 1], a) != 0.0;
    }
  }

  /** The oracle rounds its sum: exactly the gaps that round away are not seen. */
  lemma RoundedAgreesIff(lib: Library, log: seq<Payload>, a: Account)
    ensures Quantize(SqlSum(log, a)) == Sum(Parsed(lib, log), a) <==>
            RoundsAway(Gap(lib, log, a), Sum(Parsed(lib, log), a))
  {
    QuantizeIff(SqlSum(log, a), Sum(Parsed(lib, log), a));
  }

  /** Producer-built payloads pass the guard. */
  lemma SalePassesGuard(lib: Library, x: Sale)
    requires Faithful(lib)
    ensures AgreeGuard(lib, Write(x))
  {
    LibraryReads(lib, x.amount, x.now);
    MoneyRoundTrip(x.amount);
  }

  lemma DigitsOfFour()
    ensures AllDigits("0") && AllDigits("004") && ToNat("0") == 0 && ToNat("004") == 4
  {
    assert "0"[..0] == "" && "004"[..2] == "00" && "00"[..1] == "0";
    assert ToNat("0") == 0 && ToNat("00") == 0;
  }

  lemma FourThousandths()
    ensures Plain("0.004") && Value("0.004") == 0.004
  {
    DigitsOfFour();
    assert "0" + ("." + "004") == "0.004";
    ValueOfParts("0", "004");
    assert Power10(2) == 100 && Power10(3) == 1000;
  }

  /** The aggregate counts these, and the bank refuses them: no name, a name that is a number, no time ... */
  lemma OnlyTheLogCounts(lib: Library, amount: string, at: Field)
    requires lib.fromIso("None") == None && Plain(amount)
    ensures var noName := Payload(Str(""), Str("buy"), Str(amount), at, "");
      SqlPart(noName, "") == Value(amount) && ParseTrade(lib, noName) == None
    ensures var number := Payload(NonStr("7", "7"), Str("buy"), Str(amount), at, "");
      SqlPart(number, "7") == Value(amount) && ParseTrade(lib, number) == None
    ensures var noTime := Payload(Str("alice"), Str("sell"), Str(amount), Missing, "");
      SqlPart(noTime, "alice") == -Value(amount) && ParseTrade(lib, noTime) == None
  {
  }

  /** ... and this one it reads as nothing. */
  lemma FractionOfCentIsLost(lib: Library, at: Field)
    requires Faithful(lib)
    ensures var p := Payload(Str("alice"), Str("buy"), Str("0.004"), at, "");
      SqlPart(p, "alice") == 0.004 && BankPart(lib, p, "alice") == 0
  {
    FourThousandths();
    assert lib.decimal("0.004") == Some(0.004);
  }

  /** Others need not: the aggregate adds a side that the bank does not recognise. */
  lemma UnknownSideDiffers(lib: Library, at: Field)
    ensures var p := Payload(Str("alice"), Str("transfer"), Str(MoneyText(500)), at, "");
      && ParseTrade(lib, p) == None && SqlPart(p, "alice") == 5.0
      && !AgreeGuard(lib, p)
  {
    MoneyRoundTrip(500);
  }

  // ---------------------------------------------------------------------------
  // The reconciliation
  // ---------------------------------------------------------------------------

  datatype Expected = Expected(delta: Cents, trades: nat, latest: Option<Moment>)

  /** One row of the aggregate's answer. */
  datatype Group = Group(account: Account, delta: real, trades: nat, latest: Option<string>)

  function GroupOf(log: seq<Payload>, a: Account): Group {
    Group(a, SqlSum(log, a), SqlCount(log, a), SqlMax(log, a))
  }

  /** One row per account that occurs, in any order. */
  ghost predicate IsAnswer(log: seq<Payload>, groups: seq<Group>) {
    && (forall i :: 0 <= i < |groups| ==>
      groups[i].account in SqlAccounts(log) && groups[i] == GroupOf(log, groups[i].account))
    && (forall a :: a in SqlAccounts(log) ==> GroupOf(log, a) in groups)
  }

  function ExpectedOf(lib: Library, g: Group): Expected {
    var latest := if g.latest == None || g.latest.value == "" then None else lib.fromIso(g.latest.value);
    Expected(Quantize(g.delta), g.trades, latest)
  }

  function Accounts(groups: seq<Group>, n: nat): set<Account>
    requires n <= |groups|
  {
    set j | 0 <= j < n :: groups[j].account
  }

  /** The first `n` rows of the answer have been entered. */
  predicate Filled(lib: Library, groups: seq<Group>, n: nat, filled: map<Account, Expected>)
    requires n <= |groups|
  {
    && (forall j :: 0 <= j < n ==>
          && groups[j].account in filled && filled[groups[j].account] == ExpectedOf(lib, groups[j])
          && Fits(Quantize(groups[j].delta)))
    && filled.Keys == Accounts(groups, n)
  }

  lemma AnswerRow(log: seq<Payload>, groups: seq<Group>, i: nat)
    requires IsAnswer(log, groups) && i < |groups|
    ensures groups[i].account in SqlAccounts(log) && groups[i].delta == SqlSum(log, groups[i].account)
  {
  }

  lemma SameGroup(log: seq<Payload>, groups: seq<Group>, i: nat, j: nat)
    requires IsAnswer(log, groups) && i < |groups| && j < |groups| && groups[i].account == groups[j].account
    ensures groups[i] == groups[j]
  {
  }

  lemma FillNext(lib: Library, log: seq<Payload>, groups: seq<Group>, i: nat, filled: map<Account, Expected>)
    requires IsAnswer(log, groups) && i < |groups| && Filled(lib, groups, i, filled) && Fits(Quantize(groups[i].delta))
    ensures Filled(lib, groups, i + 1, filled[groups[i].account := ExpectedOf(lib, groups[i])])
  {
    var a, e := groups[i].account, ExpectedOf(lib, groups[i]);
    assert Accounts(groups, i + 1) == Accounts(groups, i) + {a};
    assert filled[a := e].Keys == Accounts(groups, i + 1);
    forall j | 0 <= j < i + 1
      ensures Fits(Quantize(groups[j].delta)) && filled[a := e][groups[j].account] == ExpectedOf(lib, groups[j])
    {
      if j < i && groups[j].account == a {
        SameGroup(log, groups, i, j);
      }
    }
  }

  lemma AnswerComplete(lib: Library, log: seq<Payload>, groups: seq<Group>, filled: map<Account, Expected>)
    requires IsAnswer(log, groups) && Filled(lib, groups, |groups|, filled)
    ensures filled.Keys == SqlAccounts(log)
    ensures forall a :: a in SqlAccounts(log) ==>
              Fits(Quantize(SqlSum(log, a))) && filled[a] == ExpectedOf(lib, GroupOf(log, a))
  {
    forall a | a in SqlAccounts(log)
      ensures a in filled && Fits(Quantize(SqlSum(log, a))) && filled[a] == ExpectedOf(lib, GroupOf(log, a))
    {
      assert GroupOf(log, a) in groups;
      var j :| 0 <= j < |groups| && groups[j] == GroupOf(log, a);
    }
  }

  /** `expected_from_event_log`: None when quantizing a sum raises. */
  method ExpectedFromEventLog(lib: Library, ghost log: seq<Payload>, groups: seq<Group>)
    returns (expected: Option<map<Account, Expected>>)
    requires IsAnswer(log, groups)
    ensures expected == None <==> exists a :: a in SqlAccounts(log) && !Fits(Quantize(SqlSum(log, a)))
    ensures expected.Some? ==>
              && expected.value.Keys == SqlAccounts(log)
              && forall a :: a in SqlAccounts(log) ==> expected.value[a] == ExpectedOf(lib, GroupOf(log, a))
    ensures expected.Some? ==>
              forall a :: a in SqlAccounts(log) ==>
                expected.value[a].delta == Quantize(SqlSum(log, a)) && expected.value[a].trades == SqlCount(log, a)
  {
    var filled: map<Account, Expected> := map[];
    for i := 0 to |groups|
      invariant Filled(lib, groups, i, filled)
    {
      if !Fits(Quantize(groups[i].delta)) {
        AnswerRow(log, groups, i);
        return None;
      }
      FillNext(lib, log, groups, i, filled);
      filled := filled[groups[i].account := ExpectedOf(lib, groups[i])];
    }
    AnswerComplete(lib, log, groups, filled);
    expected := Some(filled);
  }

  /** An account without a row in the answer has nothing to sum. */
  lemma {:induction false} AbsentSumsToZero(log: seq<Payload>, a: Account)
    requires a !in SqlAccounts(log)
    ensures SqlSum(log, a) == 0.0
  {
    if log != [] {
      var n := |log| - 1;
      assert CountedFor(log[n], a) ==> a in SqlAccounts(log);
      forall b | b in SqlAccounts(log[..n]) ensures b in SqlAccounts(log) {
        var i :| 0 <= i < n && Counted(log[..n][i]) && SqlText(log[..n][i].account).value == b;
        assert log[i] == log[..n][i];
      }
      AbsentSumsToZero(log[..n], a);
    }
  }

  datatype AccountView = AccountView(account: Account, balance: Cents, expected: Cents, drift: Cents,
                                     status: Option<string>, statusAsOf: Option<Instant>, stale: bool)

  datatype BankView = BankView(accounts: seq<AccountView>, totalDrift: Cents)

  function ExpectedIn(expected: map<Account, Expected>, a: Account): Cents {
    STARTING_BALANCE + (if a in expected then expected[a].delta else 0)
  }

  function Drift(rows: map<Account, Row>, expected: map<Account, Expected>, a: Account): Cents {
    Visible(rows, a).balance - ExpectedIn(expected, a)
  }

  /** Both timestamps are there to be compared. */
  predicate Comparable(rows: map<Account, Row>, expected: map<Account, Expected>, a: Account) {
    a in rows && a in expected && rows[a].statusAsOf.Some? && expected[a].latest.Some?
  }

  /** Comparing an aware timestamp with a naive one raises. */
  predicate Raises(rows: map<Account, Row>, expected: map<Account, Expected>, a: Account) {
    Comparable(rows, expected, a) && !expected[a].latest.value.aware
  }

  function ViewOf(rows: map<Account, Row>, expected: map<Account, Expected>, a: Account): AccountView {
    var row := Visible(rows, a);
    AccountView(a, row.balance, ExpectedIn(expected, a), Drift(rows, expected, a), row.status, row.statusAsOf,
                Comparable(rows, expected, a) && rows[a].statusAsOf.value < expected[a].latest.value.instant)
  }

  function LatestIn(expected: map<Account, Expected>, a: Account): Option<Instant> {
    if a in expected && expected[a].latest.Some? then Some(expected[a].latest.value.instant) else None
  }

  /** The fields of one line; the drift is what the bank holds minus what the log expects. */
  ghost predicate IsLine(rows: map<Account, Row>, expected: map<Account, Expected>, a: Account, line: AccountView) {
    && line.account == a
    && line.balance == (if a in rows then rows[a].balance else 1_000_000)
    && line.expected == 1_000_000 + (if a in expected then expected[a].delta else 0)
    && line.drift == line.balance - line.expected
    && line.status == (if a in rows then rows[a].status else None)
    && line.statusAsOf == (if a in rows then rows[a].statusAsOf else None)
    && (line.stale <==>
          && line.statusAsOf.Some? && a in expected && expected[a].latest.Some?
          && line.statusAsOf.value < expected[a].latest.value.instant)
  }

  lemma ViewIsLine(rows: map<Account, Row>, expected: map<Account, Expected>, a: Account)
    ensures IsLine(rows, expected, a, ViewOf(rows, expected, a))
  {
  }

  function Abs(x: int): nat {
    if x < 0 then -x else x
  }

  function TotalAbs(views: seq<AccountView>): nat {
    if views == [] then 0 else TotalAbs(views[..|views| - 1]) + Abs(views[|views| - 1].drift)
  }

  /** The total of one line is its drift without the sign, and totals add up. */
  lemma {:induction false} TotalAbsAdds(views: seq<AccountView>, more: seq<AccountView>)
    ensures TotalAbs(views + more) == TotalAbs(views) + TotalAbs(more)
    ensures |more| == 1 ==> TotalAbs(more) == if more[0].drift < 0 then -more[0].drift else more[0].drift
  {
    if more == [] {
      assert views + more == views;
    } else {
      TotalAbsAdds(views, more[..|more| - 1]);
      assert (views + more)[..|views + more| - 1] == views + more[..|more| - 1];
    }
  }

  /** Drifts of opposite sign do not cancel. */
  lemma {:induction false} TotalZeroIff(views: seq<AccountView>)
    ensures TotalAbs(views) == 0 <==> forall i :: 0 <= i < |views| ==> views[i].drift == 0
  {
    if views != [] {
      var n := |views| - 1;
      TotalZeroIff(views[..n]);
      assert forall i :: 0 <= i < n ==> views[..n][i] == views[i];
    }
  }

  ghost predicate Ascending(names: seq<Account>) {
    forall i, j :: 0 <= i < j < |names| ==> Cmp(names[i], names[j]) < 0
  }

  predicate IsLeast(rest: set<Account>, a: Account) {
    a in rest && forall b :: b in rest ==> Cmp(a, b) <= 0
  }

  lemma {:induction false} LeastExists(rest: set<Account>)
    requires rest != {}
    ensures exists a :: IsLeast(rest, a)
    decreases |rest|
  {
    var x :| x in rest;
    CmpSelf(x);
    if rest == {x} {
      assert IsLeast(rest, x);
    } else {
      LeastExists(rest - {x});
      var m :| IsLeast(rest - {x}, m);
      CmpAntisymmetric(x, m);
      var a := if Cmp(x, m) <= 0 then x else m;
      forall b | b in rest ensures Cmp(a, b) <= 0 {
        if b != x && a == x {
          CmpTransitive(x, m, b);
        }
      }
      assert IsLeast(rest, a);
    }
  }

  lemma LeastUnique(rest: set<Account>, a: Account, b: Account)
    requires IsLeast(rest, a) && IsLeast(rest, b)
    ensures a == b
  {
    CmpAntisymmetric(a, b);
    CmpZero(a, b);
  }

  /** `sorted(...)` of a set of names. */
  method SortNames(names: set<Account>) returns (sorted: seq<Account>)
    ensures Ascending(sorted) && Elems(sorted) == names
  {
    sorted := [];
    var rest := names;
    while rest != {}
      invariant rest <= names && forall a :: a in names ==> a in rest || a in sorted
      invariant forall a :: a in sorted ==> a in names
      invariant Ascending(sorted)
      invariant forall i, b :: 0 <= i < |sorted| && b in rest ==> Cmp(sorted[i], b) < 0
      decreases |rest|
    {
      LeastExists(rest);
      forall a, b | IsLeast(rest, a) && IsLeast(rest, b) ensures a == b {
        LeastUnique(rest, a, b);
      }
      var least :| IsLeast(rest, least);
      forall b | b in rest && b != least ensures Cmp(least, b) < 0 {
        if Cmp(least, b) == 0 {
          CmpZero(least, b);
        }
      }
      sorted := sorted + [least];
      rest := rest - {least};
    }
  }

  /**
   * One line per account known to the bank or the event log, in name order, and the sum of the
   * absolute drifts, which is zero only if every account agrees.
   */
  ghost predicate IsView(rows: map<Account, Row>, expected: map<Account, Expected>, view: BankView) {
    && |view.accounts| == |rows.Keys + expected.Keys|
    && (forall i, j :: 0 <= i < j < |view.accounts| ==> Cmp(view.accounts[i].account, view.accounts[j].account) < 0)
    && (forall i :: 0 <= i < |view.accounts| ==> view.accounts[i] == ViewOf(rows, expected, view.accounts[i].account))
    && (forall i :: 0 <= i < |view.accounts| ==>
          IsLine(rows, expected, view.accounts[i].account, view.accounts[i]))
    && (forall a :: a in rows.Keys + expected.Keys ==> ViewOf(rows, expected, a) in view.accounts)
    && view.totalDrift == TotalAbs(view.accounts)
    && (view.totalDrift == 0 <==> forall a :: Drift(rows, expected, a) == 0)
  }

  method AccountLine(rows: map<Account, Row>, expected: map<Account, Expected>, a: Account)
    returns (line: Option<AccountView>)
    ensures line == if Raises(rows, expected, a) then None else Some(ViewOf(rows, expected, a))
    ensures line == None <==>
            && a in rows && a in expected && rows[a].statusAsOf.Some? && expected[a].latest.Some?
            && !expected[a].latest.value.aware
    ensures line.Some? ==> IsLine(rows, expected, a, line.value)
  {
    ViewIsLine(rows, expected, a);
    var balance, status, statusAsOf := STARTING_BALANCE, None, None;
    if a in rows {
      balance, status, statusAsOf := rows[a].balance, rows[a].status, rows[a].statusAsOf;
    }
    var expectedBalance, latest := STARTING_BALANCE, None;
    if a in expected {
      expectedBalance, latest := STARTING_BALANCE + expected[a].delta, expected[a].latest;
    }
    var stale := false;
    if statusAsOf.Some? && latest.Some? {
      if !latest.value.aware {
        return None;
      }
      stale := statusAsOf.value < latest.value.instant;
    }
    line := Some(AccountView(a, balance, expectedBalance, balance - expectedBalance, status, statusAsOf, stale));
  }

  /** The lines of the first `n` names have been drawn up without an exception. */
  predicate Lines(rows: map<Account, Row>, expected: map<Account, Expected>, names: seq<Account>, n: nat,
                  accounts: seq<AccountView>)
    requires n <= |names|
  {
    |accounts| == n &&
    forall j :: 0 <= j < n ==> accounts[j] == ViewOf(rows, expected, names[j]) && !Raises(rows, expected, names[j])
  }

  lemma AddLine(rows: map<Account, Row>, expected: map<Account, Expected>, names: seq<Account>, n: nat,
                accounts: seq<AccountView>, line: AccountView)
    requires n < |names| && Lines(rows, expected, names, n, accounts)
    requires line == ViewOf(rows, expected, names[n]) && !Raises(rows, expected, names[n])
    ensures Lines(rows, expected, names, n + 1, accounts + [line])
    ensures TotalAbs(accounts + [line]) == TotalAbs(accounts) + Abs(line.drift)
  {
    assert (accounts + [line])[..|accounts|] == accounts;
  }

  predicate Shows(rows: map<Account, Row>, expected: map<Account, Expected>, names: seq<Account>,
                  accounts: seq<AccountView>) {
    |accounts| == |names| && forall j :: 0 <= j < |names| ==> accounts[j] == ViewOf(rows, expected, names[j])
  }

  lemma ShownInOrder(rows: map<Account, Row>, expected: map<Account, Expected>, names: seq<Account>,
                     accounts: seq<AccountView>)
    requires Shows(rows, expected, names, accounts) && Ascending(names)
    ensures forall i, j :: 0 <= i < j < |accounts| ==> Cmp(accounts[i].account, accounts[j].account) < 0
    ensures forall i :: 0 <= i < |accounts| ==> accounts[i] == ViewOf(rows, expected, accounts[i].account)
  {
    forall i | 0 <= i < |accounts| ensures accounts[i].account == names[i] {
    }
  }

  lemma NamesCard(names: seq<Account>)
    requires Ascending(names)
    ensures |Elems(names)| == |names|
  {
    forall i, j | 0 <= i < j < |names| ensures names[i] != names[j] {
      CmpSelf(names[i]);
    }
    DistinctCard(names, |names|);
  }

  lemma NoneRaises(rows: map<Account, Row>, expected: map<Account, Expected>, names: seq<Account>)
    requires rows.Keys * expected.Keys <= Elems(names)
    requires forall j :: 0 <= j < |names| ==> !Raises(rows, expected, names[j])
    ensures forall a :: !Raises(rows, expected, a)
  {
    forall a ensures !Raises(rows, expected, a) {
      if a in rows && a in expected {
        assert a in Elems(names);
      }
    }
  }

  lemma AllShown(rows: map<Account, Row>, expected: map<Account, Expected>, names: seq<Account>,
                 accounts: seq<AccountView>)
    requires Shows(rows, expected, names, accounts)
    ensures forall a :: a in Elems(names) ==> ViewOf(rows, expected, a) in accounts
  {
    forall a | a in Elems(names) ensures ViewOf(rows, expected, a) in accounts {
      var j :| 0 <= j < |names| && names[j] == a;
      assert accounts[j] == ViewOf(rows, expected, a);
    }
  }

  lemma TotalZero(rows: map<Account, Row>, expected: map<Account, Expected>, names: seq<Account>,
                  accounts: seq<AccountView>)
    requires Shows(rows, expected, names, accounts) && rows.Keys + expected.Keys == Elems(names)
    ensures TotalAbs(accounts) == 0 <==> forall a :: Drift(rows, expected, a) == 0
  {
    TotalZeroIff(accounts);
    if TotalAbs(accounts) == 0 {
      forall a ensures Drift(rows, expected, a) == 0 {
        if a in Elems(names) {
          var j :| 0 <= j < |names| && names[j] == a;
          assert accounts[j].drift == 0;
        }
      }
    } else {
      var j :| 0 <= j < |accounts| && accounts[j].drift != 0;
      assert Drift(rows, expected, names[j]) != 0;
    }
  }

  lemma ViewComplete(rows: map<Account, Row>, expected: map<Account, Expected>, names: seq<Account>, view: BankView)
    requires Lines(rows, expected, names, |names|, view.accounts) && view.totalDrift == TotalAbs(view.accounts)
    requires Ascending(names) && Elems(names) == rows.Keys + expected.Keys
    ensures IsView(rows, expected, view) && forall a :: !Raises(rows, expected, a)
  {
    NoneRaises(rows, expected, names);
    assert Shows(rows, expected, names, view.accounts);
    NamesCard(names);
    AllShown(rows, expected, names, view.accounts);
    TotalZero(rows, expected, names, view.accounts);
    ShownInOrder(rows, expected, names, view.accounts);
    forall i | 0 <= i < |view.accounts|
      ensures IsLine(rows, expected, view.accounts[i].account, view.accounts[i])
    {
      ViewIsLine(rows, expected, view.accounts[i].account);
    }
  }

  /** `build_bank_view`; None when comparing timestamps raises. */
  method BuildBankView(rows: map<Account, Row>, expected: map<Account, Expected>) returns (view: Option<BankView>)
    ensures view == None <==> exists a :: Raises(rows, expected, a)
    ensures view.Some? ==> IsView(rows, expected, view.value)
  {
    var names := SortNames(rows.Keys + expected.Keys);
    var accounts: seq<AccountView> := [];
    var totalDrift := 0;
    for i := 0 to |names|
      invariant Lines(rows, expected, names, i, accounts) && totalDrift == TotalAbs(accounts)
    {
      var line := AccountLine(rows, expected, names[i]);
      if line == None {
        assert Raises(rows, expected, names[i]);
        return None;
      }
      AddLine(rows, expected, names, i, accounts, line.value);
      accounts := accounts + [line.value];
      totalDrift := totalDrift + Abs(line.value.drift);
    }
    ViewComplete(rows, expected, names, BankView(accounts, totalDrift));
    view := Some(BankView(accounts, totalDrift));
  }
}
