/** Views of the transaction log that the wallet engine relies on: a customer's
    own entries, the balance chain they must form, and today's redeemed total. */
module Audit {
  import opened Common
  import opened TransactionModel

  /** A customer's transactions in the order they were appended. */
  function CustomerLog(log: seq<Transaction>, customerId: Id): seq<Transaction>
  {
    Select(log, ByCustomer, customerId)
  }

  /** The balance after the last entry of `txs`; 0 before the first one. */
  function LastBalance(txs: seq<Transaction>): int
  {
    if txs == [] then 0 else txs[|txs| - 1].walletBalanceAfter
  }

  /** The audit chain: each entry's snapshot is the previous snapshot (0 for the
      first entry) plus the points of a credit or minus the points of a debit. */
  ghost predicate Chained(txs: seq<Transaction>)
  {
    && (|txs| > 0 ==> txs[0].walletBalanceAfter == Apply(0, txs[0]))
    && forall i :: 0 < i < |txs| ==> txs[i].walletBalanceAfter == Apply(txs[i - 1].walletBalanceAfter, txs[i])
  }

  /** Extending the chain by one entry whose snapshot continues it. */
  lemma ChainedAppend(txs: seq<Transaction>, t: Transaction)
    requires Chained(txs)
    requires t.walletBalanceAfter == Apply(LastBalance(txs), t)
    ensures Chained(txs + [t])
    ensures LastBalance(txs + [t]) == t.walletBalanceAfter
  {
    var s := txs + [t];
    forall i | 0 < i < |s|
      ensures s[i].walletBalanceAfter == Apply(s[i - 1].walletBalanceAfter, s[i])
    {
      if i < |txs| {
        assert s[i] == txs[i] && s[i - 1] == txs[i - 1];
      } else {
        assert s[i - 1] == txs[|txs| - 1];
      }
    }
  }

  /** Replaying a chain from 0 gives the last snapshot. */
  function Replay(start: int, txs: seq<Transaction>): int
    decreases txs
  {
    if txs == [] then start else Replay(Apply(start, txs[0]), txs[1..])
  }

  /** The points a chained log adds up to is exactly its last snapshot: the chain
      is a faithful record of the balance. */
  lemma {:induction false} ChainedReplay(txs: seq<Transaction>)
    requires Chained(txs)
    ensures Replay(0, txs) == LastBalance(txs)
  {
    if txs != [] {
      ChainedReplayFrom(txs, 0);
    }
  }

  lemma {:induction false} ChainedReplayFrom(txs: seq<Transaction>, k: nat)
    requires Chained(txs) && k < |txs|
    ensures Replay(if k == 0 then 0 else txs[k - 1].walletBalanceAfter, txs[k..]) == LastBalance(txs)
    decreases |txs| - k
  {
    var start := if k == 0 then 0 else txs[k - 1].walletBalanceAfter;
    assert txs[k..][0] == txs[k];
    assert Apply(start, txs[k]) == txs[k].walletBalanceAfter;
    if k + 1 < |txs| {
      assert txs[k..][1..] == txs[k + 1..];
      ChainedReplayFrom(txs, k + 1);
    } else {
      assert txs[k..][1..] == [];
    }
  }

  /** A debit of `customerId` dated inside the window `[today, tomorrow)`. */
  predicate CountsToday(t: Transaction, customerId: Id, today: int, tomorrow: int)
  {
    t.customerId == customerId && t.txType == Debit && today <= t.date < tomorrow
  }

  /** The aggregation of the redeem handler: total points of the customer's debits
      dated in `[today, tomorrow)`, 0 when there are none. */
  function TodayDebitSum(log: seq<Transaction>, customerId: Id, today: int, tomorrow: int): int
  {
    if log == [] then 0
    else
      var last := log[|log| - 1];
      TodayDebitSum(log[..|log| - 1], customerId, today, tomorrow)
        + (if CountsToday(last, customerId, today, tomorrow) then last.points else 0)
  }

  /** Appending one entry adds its points to today's total only when it is one of
      today's debits of this customer. */
  lemma TodayDebitSumAppend(log: seq<Transaction>, t: Transaction, customerId: Id, today: int, tomorrow: int)
    ensures TodayDebitSum(log + [t], customerId, today, tomorrow)
         == TodayDebitSum(log, customerId, today, tomorrow)
            + (if CountsToday(t, customerId, today, tomorrow) then t.points else 0)
  {
    assert (log + [t])[..|log|] == log;
  }

  /** With well-formed entries the total is never negative. */
  lemma {:induction false} TodayDebitSumNonNegative(log: seq<Transaction>, customerId: Id, today: int, tomorrow: int)
    requires forall i :: 0 <= i < |log| ==> WellFormed(log[i])
    ensures TodayDebitSum(log, customerId, today, tomorrow) >= 0
  {
    if log != [] {
      TodayDebitSumNonNegative(log[..|log| - 1], customerId, today, tomorrow);
    }
  }
}
