/** What both demo banks share: money in cents, parsed trades, account rows. */
module Ledger {
  import opened Prelude

  type Cents = int

  /** A point on the UTC time line: an index of the microseconds, in chronological order. */
  type Instant = int

  type Account = string

  /** Every account opens at 10000.00 at both banks and in the expected balances. */
  const STARTING_BALANCE: Cents := 1_000_000

  /** The fields of a trade that a bank uses; a buy adds, a sell subtracts. */
  datatype Trade = Trade(account: Account, delta: Cents, executedAt: Instant, description: string)

  /** One account row; the status fields are unset until the first trade is applied. */
  datatype Row = Row(balance: Cents, status: Option<string>, statusAsOf: Option<Instant>)

  const FRESH_ROW := Row(STARTING_BALANCE, None, None)

  /** The account's committed row, or the row every account starts with. */
  function Visible(rows: map<Account, Row>, a: Account): Row {
    if a in rows then rows[a] else FRESH_ROW
  }

  /** The sum of the deltas of a list of trades for one account, repeats included. */
  function Sum(trades: seq<Trade>, a: Account): Cents {
    if trades == [] then 0
    else
      var t := trades[|trades| - 1];
      Sum(trades[..|trades| - 1], a) + (if t.account == a then t.delta else 0)
  }

  lemma {:induction false} SumConcat(x: seq<Trade>, y: seq<Trade>, a: Account)
    ensures Sum(x + y, a) == Sum(x, a) + Sum(y, a)
    decreases |y|
  {
    if y == [] {
      assert x + y == x;
    } else {
      var last := |y| - 1;
      SumConcat(x, y[..last], a);
      assert (x + y)[..|x + y| - 1] == x + y[..last];
    }
  }

  lemma {:induction false} SumZero(trades: seq<Trade>, a: Account)
    requires forall i :: 0 <= i < |trades| ==> trades[i].account != a
    ensures Sum(trades, a) == 0
  {
    if trades != [] {
      SumZero(trades[..|trades| - 1], a);
    }
  }
}
