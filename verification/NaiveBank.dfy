/**
 * Bank A (app/services/showcase_ledger.py, apply_trade_naive): read the balance without a lock, pause,
 * write `read + delta` blindly. Any number of concurrent transactions, any interleaving of their steps.
 */
module NaiveBank {
  import opened Prelude
  import opened Ledger

  type TxId = nat

  /** `Ensured`: the account row exists for this transaction. `Read`: it holds a balance it has read. */
  datatype Phase = Ensured | Read | Wrote

  datatype Tx = Tx(trade: Trade, phase: Phase, inserted: bool, from: nat, seen: Cents)

  /** A committed write, and how many commits its read could see. */
  datatype Write = Write(trade: Trade, from: nat)

  datatype Sys = Sys(rows: map<Account, Row>, txs: map<TxId, Tx>, log: seq<Write>)

  datatype Label =
    | EnsureRow(t: TxId, trade: Trade)
    | ReadBalance(t: TxId)
    | BlindWrite(t: TxId)
    | Commit(t: TxId)
    | Abort(t: TxId)

  /** Another transaction has inserted the row and not committed yet. */
  predicate RowBeingInserted(s: Sys, t: TxId, a: Account) {
    exists u :: u in s.txs && u != t && s.txs[u].inserted && s.txs[u].trade.account == a
  }

  /** Another transaction has updated the row and not committed yet. */
  predicate RowLocked(s: Sys, t: TxId, a: Account) {
    exists u :: u in s.txs && u != t && s.txs[u].phase == Wrote && s.txs[u].trade.account == a
  }

  predicate Enabled(s: Sys, l: Label) {
    match l
    case EnsureRow(t, trade) => t !in s.txs && !RowBeingInserted(s, t, trade.account)
    case ReadBalance(t) => t in s.txs && s.txs[t].phase == Ensured
    case BlindWrite(t) =>
      t in s.txs && s.txs[t].phase == Read && !RowLocked(s, t, s.txs[t].trade.account)
    case Commit(t) => t in s.txs && s.txs[t].phase == Wrote
    case Abort(t) => t in s.txs
  }

  function Exec(s: Sys, l: Label): Sys
    requires Enabled(s, l)
  {
    match l
    case EnsureRow(t, trade) =>
      s.(txs := s.txs[t := Tx(trade, Ensured, trade.account !in s.rows, 0, 0)])
    case ReadBalance(t) =>
      var x := s.txs[t];
      s.(txs := s.txs[t := x.(phase := Read, from := |s.log|, seen := Visible(s.rows, x.trade.account).balance)])
    case BlindWrite(t) => s.(txs := s.txs[t := s.txs[t].(phase := Wrote)])
    case Commit(t) =>
      var x := s.txs[t];
      var row := Row(x.seen + x.trade.delta, Some(x.trade.description), Some(x.trade.executedAt));
      Sys(s.rows[x.trade.account := row], s.txs - {t}, s.log + [Write(x.trade, x.from)])
    case Abort(t) => s.(txs := s.txs - {t})
  }

  /** The state after some steps, if each is enabled when its turn comes. */
  function After(s: Sys, labels: seq<Label>): Option<Sys>
    decreases |labels|
  {
    if labels == [] then Some(s)
    else if Enabled(s, labels[0]) then After(Exec(s, labels[0]), labels[1..])
    else None
  }

  // ---------------------------------------------------------------------------
  // One call run alone
  // ---------------------------------------------------------------------------

  /** The row after one more trade, whatever its timestamp and however often it came. */
  function Credited(row: Row, trade: Trade): Row {
    Row(row.balance + trade.delta, Some(trade.description), Some(trade.executedAt))
  }

  class Bank {
    var rows: map<Account, Row>

    constructor ()
      ensures rows == map[]
    {
      rows := map[];
    }

    method ApplyTrade(trade: Trade)
      modifies this
      ensures rows == old(rows)[trade.account := Credited(Visible(old(rows), trade.account), trade)]
      ensures rows[trade.account].balance ==
              (if trade.account in old(rows) then old(rows)[trade.account].balance else 1_000_000) + trade.delta
      ensures rows[trade.account].status == Some(trade.description)
      ensures rows[trade.account].statusAsOf == Some(trade.executedAt)
    {
      var a := trade.account;
      if a !in rows {
        rows := rows[a := FRESH_ROW];
      }
      var seen := rows[a].balance;
      rows := rows[a := rows[a].(balance := seen + trade.delta)];
      rows := rows[a := rows[a].(status := Some(trade.description), statusAsOf := Some(trade.executedAt))];
    }
  }

  /** The steps of one call, with nobody in between, do what the call does alone. */
  lemma AloneIsOneCall(s: Sys, t: TxId, trade: Trade)
    requires s.txs == map[]
    ensures var s' := After(s, [EnsureRow(t, trade), ReadBalance(t), BlindWrite(t), Commit(t)]);
      && s'.Some? && s'.value.txs == map[]
      && s'.value.rows == s.rows[trade.account := Credited(Visible(s.rows, trade.account), trade)]
  {
    var s1 := Exec(s, EnsureRow(t, trade));
    var s2 := Exec(s1, ReadBalance(t));
    var s3 := Exec(s2, BlindWrite(t));
    var s4 := Exec(s3, Commit(t));
    assert After(s3, [Commit(t)]) == Some(s4);
    assert After(s2, [BlindWrite(t), Commit(t)]) == Some(s4);
    assert After(s1, [ReadBalance(t), BlindWrite(t), Commit(t)]) == Some(s4);
  }

  ghost predicate Run(states: seq<Sys>, labels: seq<Label>) {
    && |states| == |labels| + 1
    && states[0] == Sys(map[], map[], [])
    && forall i :: 0 <= i < |labels| ==> Enabled(states[i], labels[i]) && states[i + 1] == Exec(states[i], labels[i])
  }

  // ---------------------------------------------------------------------------
  // The reads-from chain
  // ---------------------------------------------------------------------------

  predicate WellFormed(log: seq<Write>) {
    forall i :: 0 <= i < |log| ==> log[i].from <= i
  }

  /** The deltas along the chain: the account's last write, the write that one read, and so on. */
  function ChainSum(log: seq<Write>, a: Account): Cents
    requires WellFormed(log)
  {
    if log == [] then 0
    else
      var w := log[|log| - 1];
      if w.trade.account == a then ChainSum(log[..w.from], a) + w.trade.delta
      else ChainSum(log[..|log| - 1], a)
  }

  function Trades(log: seq<Write>): (ts: seq<Trade>)
    ensures |ts| == |log| && forall i :: 0 <= i < |log| ==> ts[i] == log[i].trade
  {
    if log == [] then [] else Trades(log[..|log| - 1]) + [log[|log| - 1].trade]
  }

  /** Along the chain, everything committed to the account between a read and its write. */
  function Lost(log: seq<Write>, a: Account): Cents
    requires WellFormed(log)
  {
    if log == [] then 0
    else
      var w := log[|log| - 1];
      if w.trade.account == a then Lost(log[..w.from], a) + Sum(Trades(log[w.from..|log| - 1]), a)
      else Lost(log[..|log| - 1], a)
  }

  lemma TradesConcat(x: seq<Write>, y: seq<Write>)
    ensures Trades(x + y) == Trades(x) + Trades(y)
  {
  }

  /** What the chain keeps and what it loses add up to every committed delta, with multiplicity. */
  lemma {:induction false} ChainAndLost(log: seq<Write>, a: Account)
    requires WellFormed(log)
    ensures ChainSum(log, a) + Lost(log, a) == Sum(Trades(log), a)
    decreases |log|
  {
    if log != [] {
      var n := |log| - 1;
      var w := log[n];
      assert Trades(log)[..n] == Trades(log[..n]);
      if w.trade.account == a {
        ChainAndLost(log[..w.from], a);
        assert log[..n] == log[..w.from] + log[w.from..n];
        TradesConcat(log[..w.from], log[w.from..n]);
        SumConcat(Trades(log[..w.from]), Trades(log[w.from..n]), a);
      } else {
        ChainAndLost(log[..n], a);
      }
    }
  }

  // ---------------------------------------------------------------------------
  // The invariant
  // ---------------------------------------------------------------------------

  ghost predicate TxInv(log: seq<Write>, x: Tx) {
    x.phase != Ensured ==>
      && x.from <= |log|
      && WellFormed(log[..x.from])
      && x.seen == STARTING_BALANCE + ChainSum(log[..x.from], x.trade.account)
  }

  ghost predicate RowInv(log: seq<Write>, rows: map<Account, Row>, a: Account)
    requires WellFormed(log)
  {
    Visible(rows, a).balance == STARTING_BALANCE + ChainSum(log, a)
  }

  ghost predicate Inv(s: Sys) {
    && WellFormed(s.log)
    && (forall a :: RowInv(s.log, s.rows, a))
    && (forall t :: t in s.txs ==> TxInv(s.log, s.txs[t]))
  }

  lemma CommitStep(s: Sys, t: TxId)
    requires Inv(s) && Enabled(s, Commit(t))
    ensures Inv(Exec(s, Commit(t)))
  {
    var s' := Exec(s, Commit(t));
    var x := s.txs[t];
    assert s'.log[..|s.log|] == s.log && s'.log[..x.from] == s.log[..x.from];
    forall a ensures RowInv(s'.log, s'.rows, a) {
      assert RowInv(s.log, s.rows, a);
    }
    forall u | u in s'.txs ensures TxInv(s'.log, s'.txs[u]) {
      assert s.txs[u].phase != Ensured ==> s'.log[..s.txs[u].from] == s.log[..s.txs[u].from];
    }
  }

  lemma StepKeepsInv(s: Sys, l: Label)
    requires Inv(s) && Enabled(s, l)
    ensures Inv(Exec(s, l))
  {
    match l
    case ReadBalance(t) =>
      assert s.log[..|s.log|] == s.log;
      assert RowInv(s.log, s.rows, s.txs[t].trade.account);
    case Commit(t) => CommitStep(s, t);
    case _ =>
      var s' := Exec(s, l);
      forall a ensures RowInv(s'.log, s'.rows, a) {
        assert RowInv(s.log, s.rows, a);
      }
  }

  lemma {:induction false} RunKeepsInv(states: seq<Sys>, labels: seq<Label>, n: nat)
    requires Run(states, labels) && n <= |labels|
    ensures Inv(states[n])
  {
    if n > 0 {
      RunKeepsInv(states, labels, n - 1);
      StepKeepsInv(states[n - 1], labels[n - 1]);
    }
  }

  /**
   * Bank A exactly: in every interleaving the balance is the start plus the deltas along the last
   * writer's reads-from chain, so it falls short of the full sum by exactly what the chain skipped.
   */
  lemma BalanceIsChain(states: seq<Sys>, labels: seq<Label>, n: nat, a: Account)
    requires Run(states, labels) && n <= |labels|
    ensures WellFormed(states[n].log)
    ensures Visible(states[n].rows, a).balance == STARTING_BALANCE + ChainSum(states[n].log, a)
    ensures Visible(states[n].rows, a).balance ==
            STARTING_BALANCE + Sum(Trades(states[n].log), a) - Lost(states[n].log, a)
  {
    RunKeepsInv(states, labels, n);
    assert RowInv(states[n].log, states[n].rows, a);
    ChainAndLost(states[n].log, a);
  }

  // ---------------------------------------------------------------------------
  // The status is that of the last commit, not of the latest trade
  // ---------------------------------------------------------------------------

  predicate IsLastWrite(log: seq<Write>, a: Account, i: nat) {
    i < |log| && log[i].trade.account == a && forall j :: i < j < |log| ==> log[j].trade.account != a
  }

  /** The account shows the last trade committed to it; without one it has no row. */
  ghost predicate ShowsLastWrite(s: Sys, a: Account) {
    if forall i :: 0 <= i < |s.log| ==> s.log[i].trade.account != a then a !in s.rows
    else
      && a in s.rows
      && exists i: nat :: IsLastWrite(s.log, a, i)
           && s.rows[a].status == Some(s.log[i].trade.description)
           && s.rows[a].statusAsOf == Some(s.log[i].trade.executedAt)
  }

  lemma StepShowsLast(s: Sys, l: Label, a: Account)
    requires ShowsLastWrite(s, a) && Enabled(s, l)
    ensures ShowsLastWrite(Exec(s, l), a)
  {
    if l.Commit? {
      var s' := Exec(s, l);
      assert s'.log[|s.log|].trade == s.txs[l.t].trade;
      if s.txs[l.t].trade.account == a {
        assert IsLastWrite(s'.log, a, |s.log|);
      } else if a in s.rows {
        var i: nat :| IsLastWrite(s.log, a, i) && s.rows[a].status == Some(s.log[i].trade.description)
                      && s.rows[a].statusAsOf == Some(s.log[i].trade.executedAt);
        assert s'.log[i] == s.log[i] && IsLastWrite(s'.log, a, i);
      }
    }
  }

  /** In every run, and whenever that trade was executed: a late redelivery takes the status back. */
  lemma {:induction false} StatusIsLastCommitted(states: seq<Sys>, labels: seq<Label>, n: nat, a: Account)
    requires Run(states, labels) && n <= |labels|
    ensures ShowsLastWrite(states[n], a)
  {
    if n > 0 {
      StatusIsLastCommitted(states, labels, n - 1, a);
      StepShowsLast(states[n - 1], labels[n - 1], a);
    }
  }

  // ---------------------------------------------------------------------------
  // Calls that do not overlap lose nothing
  // ---------------------------------------------------------------------------

  /** At most one open transaction works on account `a`. */
  ghost predicate Alone(s: Sys, a: Account) {
    forall t, u :: t in s.txs && u in s.txs && s.txs[t].trade.account == a && s.txs[u].trade.account == a ==> t == u
  }

  /** No write to `a` from position `from` on. */
  predicate Untouched(log: seq<Write>, from: nat, a: Account) {
    forall j :: from <= j < |log| ==> log[j].trade.account != a
  }

  ghost predicate FreshReads(s: Sys, a: Account) {
    && (forall i :: 0 <= i < |s.log| && s.log[i].trade.account == a ==> Untouched(s.log[..i], s.log[i].from, a))
    && (forall t :: t in s.txs && s.txs[t].trade.account == a && s.txs[t].phase != Ensured ==>
          Untouched(s.log, s.txs[t].from, a))
  }

  lemma StepKeepsFresh(s: Sys, l: Label, a: Account)
    requires FreshReads(s, a) && Alone(s, a) && Enabled(s, l)
    ensures FreshReads(Exec(s, l), a)
  {
    if l.Commit? {
      var s' := Exec(s, l);
      forall i | 0 <= i < |s'.log| && s'.log[i].trade.account == a
        ensures Untouched(s'.log[..i], s'.log[i].from, a)
      {
        assert s'.log[..i] == s.log[..i];
        assert s.log[..|s.log|] == s.log;
      }
    }
  }

  lemma {:induction false} AloneIsFresh(states: seq<Sys>, labels: seq<Label>, n: nat, a: Account)
    requires Run(states, labels) && n <= |labels|
    requires forall i :: 0 <= i < n ==> Alone(states[i], a)
    ensures FreshReads(states[n], a)
  {
    if n > 0 {
      AloneIsFresh(states, labels, n - 1, a);
      StepKeepsFresh(states[n - 1], labels[n - 1], a);
    }
  }

  lemma {:induction false} FreshLosesNothing(log: seq<Write>, a: Account)
    requires WellFormed(log)
    requires forall i :: 0 <= i < |log| && log[i].trade.account == a ==> Untouched(log[..i], log[i].from, a)
    ensures Lost(log, a) == 0
    decreases |log|
  {
    if log != [] {
      var n := |log| - 1;
      var w := log[n];
      var k := if w.trade.account == a then w.from else n;
      forall i | 0 <= i < k && log[i].trade.account == a ensures Untouched(log[..k][..i], log[i].from, a) {
        assert log[..k][..i] == log[..i];
      }
      FreshLosesNothing(log[..k], a);
      if w.trade.account == a {
        SumZero(Trades(log[w.from..n]), a);
      }
    }
  }

  /** When no two calls for an account overlap, every delta counts, each redelivery once more. */
  lemma NoOverlapNoLoss(states: seq<Sys>, labels: seq<Label>, n: nat, a: Account)
    requires Run(states, labels) && n <= |labels|
    requires forall i :: 0 <= i < n ==> Alone(states[i], a)
    ensures Visible(states[n].rows, a).balance == STARTING_BALANCE + Sum(Trades(states[n].log), a)
  {
    AloneIsFresh(states, labels, n, a);
    BalanceIsChain(states, labels, n, a);
    FreshLosesNothing(states[n].log, a);
  }

  // ---------------------------------------------------------------------------
  // Two writers lose an update
  // ---------------------------------------------------------------------------

  /**
   * From any state with no open transaction, two deliveries for one existing account can run so that
   * the first one's delta is gone and the status is the second one's, whatever its timestamp.
   */
  lemma TwoWritersLoseOne(s: Sys, one: Trade, two: Trade) returns (s': Sys)
    requires s.txs == map[] && one.account in s.rows && two.account == one.account
    ensures After(s, [EnsureRow(1, one), EnsureRow(2, two), ReadBalance(1), ReadBalance(2)]).Some?
    ensures After(After(s, [EnsureRow(1, one), EnsureRow(2, two), ReadBalance(1), ReadBalance(2)]).value,
                  [BlindWrite(1), Commit(1), BlindWrite(2), Commit(2)]) == Some(s')
    ensures s'.log == s.log + [Write(one, |s.log|), Write(two, |s.log|)] && s'.txs == map[]
    ensures s'.rows == s.rows[one.account := Credited(s.rows[one.account], two)]
    ensures s'.rows[one.account].balance == s.rows[one.account].balance + two.delta
  {
    var s1 := Exec(s, EnsureRow(1, one));
    var s2 := Exec(s1, EnsureRow(2, two));
    var s3 := Exec(s2, ReadBalance(1));
    var s4 := Exec(s3, ReadBalance(2));
    assert After(s3, [ReadBalance(2)]) == Some(s4);
    assert After(s2, [ReadBalance(1), ReadBalance(2)]) == Some(s4);
    assert After(s1, [EnsureRow(2, two), ReadBalance(1), ReadBalance(2)]) == Some(s4);
    var s5 := Exec(s4, BlindWrite(1));
    var s6 := Exec(s5, Commit(1));
    var s7 := Exec(s6, BlindWrite(2));
    s' := Exec(s7, Commit(2));
    assert After(s7, [Commit(2)]) == Some(s');
    assert After(s6, [BlindWrite(2), Commit(2)]) == Some(s');
    assert After(s5, [Commit(1), BlindWrite(2), Commit(2)]) == Some(s');
  }
}
