/** The document store the controllers read and write: customers and the
    transaction log (the wallet ledger), the settings collection, and the worker
    and branch collections. */
module Store {
  import opened Common
  import opened MerchantSettingsModel
  import opened CustomerModel
  import opened TransactionModel
  import opened Audit

  /** A worker or branch document: its owning merchant and its other fields by
      name (`sStatus`, `sEmail`, `oBranchId`, `oAssignedWorkerId`, ...). */
  datatype Doc = Doc(merchantId: Id, fields: map<string, Value>)

  /** The worker's stored email, when it has one. */
  function EmailOf(d: Doc): Option<string>
  {
    if "sEmail" in d.fields && d.fields["sEmail"].Text? then Some(d.fields["sEmail"].s) else None
  }

  /** The unique index on the worker's email. */
  ghost predicate UniqueEmails(workers: map<Id, Doc>)
  {
    forall a, b :: a in workers && b in workers && a != b && EmailOf(workers[a]).Some? ==>
      EmailOf(workers[a]) != EmailOf(workers[b])
  }

  /** The two collections the wallet engine writes. */
  datatype Ledger = Ledger(customers: map<Id, Customer>, log: seq<Transaction>)

  ghost predicate CustomersValid(customers: map<Id, Customer>)
  {
    && (forall k :: k in customers ==> customers[k].id == k && CustomerModel.WellFormed(customers[k]))
    && UniquePhonePerMerchant(customers)
  }

  ghost predicate LogValid(log: seq<Transaction>)
  {
    forall i :: 0 <= i < |log| ==> TransactionModel.WellFormed(log[i])
  }

  /** For every customer, its entries form the audit chain and the last snapshot is
      the stored balance. */
  ghost predicate AuditHolds(l: Ledger)
  {
    forall k :: k in l.customers ==>
      Chained(CustomerLog(l.log, k)) && LastBalance(CustomerLog(l.log, k)) == l.customers[k].walletBalance
  }

  ghost predicate LedgerValid(l: Ledger)
  {
    CustomersValid(l.customers) && LogValid(l.log) && AuditHolds(l)
  }

  class Db {
    var customers: map<Id, Customer>
    var transactions: seq<Transaction>
    var settings: seq<MerchantSettings>
    var workers: map<Id, Doc>
    var branches: map<Id, Doc>

    ghost predicate Valid()
      reads this
    {
      LedgerValid(CurrentLedger()) && ValidTable(settings) && UniqueEmails(workers)
    }

    /** The wallet ledger as a value. */
    function CurrentLedger(): Ledger
      reads this
    {
      Ledger(customers, transactions)
    }

    /** An empty store. */
    constructor ()
      ensures Valid()
      ensures customers == map[] && transactions == [] && settings == []
      ensures workers == map[] && branches == map[]
    {
      customers, transactions, settings := map[], [], [];
      workers, branches := map[], map[];
    }
  }
}
