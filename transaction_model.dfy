/** The transaction record and its finders (`src/models/transactionModel.js`). */
module TransactionModel {
  import opened Common

  datatype TxType = Credit | Debit
  datatype PayStatus = Paid | Unpaid

  function TypeName(t: TxType): string
  {
    match t
    case Credit => "credit"
    case Debit => "debit"
  }

  /** One ledger entry. Points are whole numbers; cash value and commission are
      decimals; `date` is `dTransactionDate` in milliseconds since the epoch. */
  datatype Transaction = Transaction(
    customerId: Id,
    merchantId: Id,
    branchId: Id,
    workerId: Id,
    txType: TxType,
    points: int,
    cashEquivalentValue: real,
    adminCommissionValue: real,
    payStatus: PayStatus,
    date: int,
    walletBalanceAfter: int)

  /** The schema's `min: 0` validators on the four numeric fields. */
  predicate WellFormed(t: Transaction)
  {
    && t.points >= 0
    && t.cashEquivalentValue >= 0.0
    && t.adminCommissionValue >= 0.0
    && t.walletBalanceAfter >= 0
  }

  /** The balance a transaction leads to from `before`: up for a credit, down for a debit. */
  function Apply(before: int, t: Transaction): (after: int)
    ensures t.txType == Credit ==> after - before == t.points
    ensures t.txType == Debit ==> before - after == t.points
  {
    match t.txType
    case Credit => before + t.points
    case Debit => before - t.points
  }

  /** The reference fields a finder can filter on. */
  datatype Key = ByCustomer | ByMerchant | ByBranch | ByWorker

  function KeyOf(t: Transaction, k: Key): Id
  {
    match k
    case ByCustomer => t.customerId
    case ByMerchant => t.merchantId
    case ByBranch => t.branchId
    case ByWorker => t.workerId
  }

  /** `find({ <key>: id })`: the matching transactions in log order. */
  function Select(log: seq<Transaction>, k: Key, id: Id): (r: seq<Transaction>)
    ensures forall t :: t in r <==> t in log && KeyOf(t, k) == id
    ensures forall i :: 0 <= i < |r| ==> KeyOf(r[i], k) == id
    ensures |r| <= |log|
  {
    if log == [] then []
    else
      var last := log[|log| - 1];
      Select(log[..|log| - 1], k, id) + (if KeyOf(last, k) == id then [last] else [])
  }

  /** Appending to the log appends to every selection it belongs to. */
  lemma SelectAppend(log: seq<Transaction>, t: Transaction, k: Key, id: Id)
    ensures Select(log + [t], k, id) == Select(log, k, id) + (if KeyOf(t, k) == id then [t] else [])
  {
    assert (log + [t])[..|log|] == log;
  }

  /** Newest first: dates never increase along the sequence. */
  ghost predicate NewestFirst(s: seq<Transaction>)
  {
    forall i, j :: 0 <= i < j < |s| ==> s[i].date >= s[j].date
  }

  /** Places `t` into a newest-first sequence. */
  function InsertByDate(t: Transaction, s: seq<Transaction>): (r: seq<Transaction>)
    requires NewestFirst(s)
    ensures NewestFirst(r)
    ensures multiset(r) == multiset(s) + multiset{t}
    ensures |r| == |s| + 1
    ensures forall x :: x in r ==> x == t || x in s
  {
    if s == [] || t.date >= s[0].date then
      ConsNewestFirst(t, s);
      [t] + s
    else
      var rest := InsertByDate(t, s[1..]);
      assert s == [s[0]] + s[1..];
      ConsNewestFirst(s[0], rest);
      [s[0]] + rest
  }

  /** An entry at least as new as the head of a newest-first sequence (and so as
      every entry of it) can go in front. */
  lemma ConsNewestFirst(x: Transaction, s: seq<Transaction>)
    requires NewestFirst(s)
    requires s != [] ==> x.date >= s[0].date
    ensures NewestFirst([x] + s)
  {
    var r := [x] + s;
    forall i, j | 0 <= i < j < |r| ensures r[i].date >= r[j].date {
      if i == 0 {
        assert r[j] == s[j - 1];
        if j > 1 { assert s[0].date >= s[j - 1].date; }
      } else {
        assert r[i] == s[i - 1] && r[j] == s[j - 1];
      }
    }
  }

  /** `.sort({ dTransactionDate: -1 })`: a newest-first reordering of `s`. */
  function SortNewestFirst(s: seq<Transaction>): (r: seq<Transaction>)
    ensures NewestFirst(r)
    ensures multiset(r) == multiset(s)
    ensures |r| == |s|
  {
    if s == [] then []
    else
      assert s == [s[0]] + s[1..];
      InsertByDate(s[0], SortNewestFirst(s[1..]))
  }

  /** The four finders: filter on one reference, newest first. */
  function FindBy(log: seq<Transaction>, k: Key, id: Id): (r: seq<Transaction>)
    ensures NewestFirst(r)
    ensures multiset(r) == multiset(Select(log, k, id))
    ensures forall t :: t in r <==> t in log && KeyOf(t, k) == id
  {
    var r := SortNewestFirst(Select(log, k, id));
    assert forall t :: t in r <==> t in multiset(r);
    r
  }

  function FindByCustomer(log: seq<Transaction>, customerId: Id): (r: seq<Transaction>)
    ensures NewestFirst(r)
    ensures multiset(r) == multiset(Select(log, ByCustomer, customerId))
    ensures forall t :: t in r <==> t in log && t.customerId == customerId
  {
    FindBy(log, ByCustomer, customerId)
  }

  function FindByMerchant(log: seq<Transaction>, merchantId: Id): (r: seq<Transaction>)
    ensures NewestFirst(r)
    ensures multiset(r) == multiset(Select(log, ByMerchant, merchantId))
    ensures forall t :: t in r <==> t in log && t.merchantId == merchantId
  {
    FindBy(log, ByMerchant, merchantId)
  }

  function FindByBranch(log: seq<Transaction>, branchId: Id): (r: seq<Transaction>)
    ensures NewestFirst(r)
    ensures multiset(r) == multiset(Select(log, ByBranch, branchId))
    ensures forall t :: t in r <==> t in log && t.branchId == branchId
  {
    FindBy(log, ByBranch, branchId)
  }

  function FindByWorker(log: seq<Transaction>, workerId: Id): (r: seq<Transaction>)
    ensures NewestFirst(r)
    ensures multiset(r) == multiset(Select(log, ByWorker, workerId))
    ensures forall t :: t in r <==> t in log && t.workerId == workerId
  {
    FindBy(log, ByWorker, workerId)
  }
}
