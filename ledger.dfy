/** The sums of the `dashboard` route: deposits and withdrawals per user from
    the Transaction table, profits and losses per user from the DailyTrade
    table, and the two figures built on them:
      active balance = deposits - withdrawals + profits - losses
      total P/L      = profits - losses. */
module Ledger {
  import opened Records
  import opened Days

  /** `SUM(CASE WHEN type = kind THEN amount ELSE 0 END)` over the user's rows. */
  function TxTotal(txs: seq<Transaction>, userId: nat, kind: TxType): int
  {
    if txs == [] then 0
    else (if txs[0].userId == userId && txs[0].kind == kind then txs[0].amount else 0)
         + TxTotal(txs[1..], userId, kind)
  }

  /** `SUM(DailyTrade.profit)` (Gains) or `SUM(DailyTrade.loss)` (Losses) over
      the user's rows. */
  function TradeTotal(trades: seq<DailyTrade>, userId: nat, side: Side): int
  {
    if trades == [] then 0
    else (if trades[0].userId == userId then AmountOf(trades[0], side) else 0)
         + TradeTotal(trades[1..], userId, side)
  }

  predicate HasTransactions(txs: seq<Transaction>, userId: nat)
  {
    exists i :: 0 <= i < |txs| && txs[i].userId == userId
  }

  /** The deposit or withdrawal sum as the query returns it: NULL (None) when
      the user has no Transaction row at all, since SQL's SUM of no rows is
      NULL, and a number otherwise, 0 included. */
  function ShownTotal(txs: seq<Transaction>, userId: nat, kind: TxType): (r: Option<int>)
    ensures r.None? <==> !HasTransactions(txs, userId)
    ensures r.Some? ==> r.value == TxTotal(txs, userId, kind)
  {
    if HasTransactions(txs, userId) then Some(TxTotal(txs, userId, kind)) else None
  }

  /** Python's `x or 0` on a sum that may be None. */
  function OrZero(x: Option<int>): int
  {
    if x.Some? then x.value else 0
  }

  function TotalPl(trades: seq<DailyTrade>, userId: nat): int
  {
    TradeTotal(trades, userId, Gains) - TradeTotal(trades, userId, Losses)
  }

  function ActiveBalance(txs: seq<Transaction>, trades: seq<DailyTrade>, userId: nat): int
  {
    OrZero(ShownTotal(txs, userId, Deposit)) - OrZero(ShownTotal(txs, userId, Withdraw))
    + TradeTotal(trades, userId, Gains) - TradeTotal(trades, userId, Losses)
  }

  /** The balance is the net cash movement plus the total P/L, and a user with
      no rows at all has a balance of 0. */
  lemma BalanceSplits(txs: seq<Transaction>, trades: seq<DailyTrade>, userId: nat)
    ensures ActiveBalance(txs, trades, userId)
            == TxTotal(txs, userId, Deposit) - TxTotal(txs, userId, Withdraw) + TotalPl(trades, userId)
    ensures (forall i :: 0 <= i < |txs| ==> txs[i].userId != userId)
            && (forall i :: 0 <= i < |trades| ==> trades[i].userId != userId)
            ==> ActiveBalance(txs, trades, userId) == 0
  {
    if !HasTransactions(txs, userId) {
      TxTotalOtherRows(txs, userId, Deposit);
      TxTotalOtherRows(txs, userId, Withdraw);
    }
    if forall i :: 0 <= i < |trades| ==> trades[i].userId != userId {
      TradeTotalOtherRows(trades, userId, Gains);
      TradeTotalOtherRows(trades, userId, Losses);
    }
  }

  /** Rows of other users contribute nothing: with none of the user's own, the sum is 0. */
  lemma {:induction false} TxTotalOtherRows(txs: seq<Transaction>, userId: nat, kind: TxType)
    requires forall i :: 0 <= i < |txs| ==> txs[i].userId != userId
    ensures TxTotal(txs, userId, kind) == 0
  {
    if txs != [] {
      assert forall i :: 0 <= i < |txs[1..]| ==> txs[1..][i] == txs[i + 1];
      TxTotalOtherRows(txs[1..], userId, kind);
    }
  }

  lemma {:induction false} TradeTotalOtherRows(trades: seq<DailyTrade>, userId: nat, side: Side)
    requires forall i :: 0 <= i < |trades| ==> trades[i].userId != userId
    ensures TradeTotal(trades, userId, side) == 0
  {
    if trades != [] {
      assert forall i :: 0 <= i < |trades[1..]| ==> trades[1..][i] == trades[i + 1];
      TradeTotalOtherRows(trades[1..], userId, side);
    }
  }

  /** Appending one Transaction adds its amount to the matching sum only. */
  lemma {:induction false} TxTotalAppend(txs: seq<Transaction>, t: Transaction, userId: nat, kind: TxType)
    ensures TxTotal(txs + [t], userId, kind)
            == TxTotal(txs, userId, kind) + (if t.userId == userId && t.kind == kind then t.amount else 0)
  {
    if txs != [] {
      assert (txs + [t])[1..] == txs[1..] + [t];
      TxTotalAppend(txs[1..], t, userId, kind);
    }
  }

  /** A deposit of `a` raises its owner's balance by `a`; a withdrawal lowers it
      by `a`; every other user's balance stays as it was. */
  lemma TransactionMovesBalance(txs: seq<Transaction>, trades: seq<DailyTrade>, t: Transaction, userId: nat)
    ensures ActiveBalance(txs + [t], trades, userId)
            == ActiveBalance(txs, trades, userId)
               + (if t.userId != userId then 0 else if t.kind == Deposit then t.amount else -t.amount)
  {
    BalanceSplits(txs, trades, userId);
    BalanceSplits(txs + [t], trades, userId);
    TxTotalAppend(txs, t, userId, Deposit);
    TxTotalAppend(txs, t, userId, Withdraw);
  }

  /** Upserting a DailyTrade row replaces the amount of the row it overwrites
      (0 when it adds a new row) by the new amount, in its owner's sum only. */
  lemma {:induction false} UpsertMovesTotal(trades: seq<DailyTrade>, rec: DailyTrade, userId: nat, side: Side)
    ensures var before := FindTrade(trades, rec.userId, rec.tradeDate);
            TradeTotal(Upsert(trades, rec), userId, side)
            == TradeTotal(trades, userId, side)
               + (if rec.userId != userId then 0
                  else AmountOf(rec, side) - (if before.Some? then AmountOf(before.value, side) else 0))
  {
    if trades != [] && !IsKey(trades[0], rec.userId, rec.tradeDate) {
      UpsertMovesTotal(trades[1..], rec, userId, side);
      assert Upsert(trades, rec)[1..] == Upsert(trades[1..], rec);
    } else if trades != [] {
      assert Upsert(trades, rec)[1..] == trades[1..];
    }
  }

  /** A small example: deposits of 1000.00, withdrawals of
      200.00, one day with profit 50.00 and loss 10.00 give a balance of
      840.00 and a total P/L of 40.00. */
  lemma WorkedExample()
    ensures var txs := [Transaction(1, Deposit, 100000), Transaction(1, Withdraw, 20000)];
            var trades := [DailyTrade(1, Date(2024, 1, 2), 5000, 1000, "", "")];
            ActiveBalance(txs, trades, 1) == 84000 && TotalPl(trades, 1) == 4000
  {
    var txs := [Transaction(1, Deposit, 100000), Transaction(1, Withdraw, 20000)];
    assert HasTransactions(txs, 1) by { assert txs[0].userId == 1; }
  }
}
