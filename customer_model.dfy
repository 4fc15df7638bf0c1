/** The customer record (`src/models/customerModel.js`). */
module CustomerModel {
  import opened Common

  datatype CustomerStatus = Active | Inactive

  /** The status strings the schema's enum admits. */
  function StatusName(s: CustomerStatus): string
  {
    match s
    case Active => "active"
    case Inactive => "inactive"
  }

  /** Reading a status string: `None` for anything outside the enum. */
  function ParseStatus(s: string): (r: Option<CustomerStatus>)
    ensures r.Some? <==> s == "active" || s == "inactive"
    ensures r.Some? ==> StatusName(r.value) == s
  {
    if s == "active" then Some(Active)
    else if s == "inactive" then Some(Inactive)
    else None
  }

  /** Dates are milliseconds since the epoch. Merchant and branch are required;
      the assigned worker and both transaction dates are optional. Name, email,
      birth date, QR code and the audit timestamps are not modelled. */
  datatype Customer = Customer(
    id: Id,
    phoneNumber: string,
    merchantId: Id,
    branchId: Id,
    assignedWorkerId: Option<Id>,
    walletBalance: int,
    registrationDate: int,
    firstTransactionDate: Option<int>,
    lastTransactionDate: Option<int>,
    status: CustomerStatus)

  /** The schema's `min: 0` on the wallet balance. */
  predicate WellFormed(c: Customer)
  {
    c.walletBalance >= 0
  }

  /** A freshly created customer takes the schema defaults. */
  function NewCustomer(id: Id, phoneNumber: string, merchantId: Id, branchId: Id,
                       assignedWorkerId: Option<Id>, now: int): (c: Customer)
    ensures c.id == id && c.merchantId == merchantId && c.branchId == branchId
    ensures c.phoneNumber == phoneNumber && c.assignedWorkerId == assignedWorkerId
    ensures c.walletBalance == 0 && c.status == Active && c.registrationDate == now
    ensures c.firstTransactionDate.None? && c.lastTransactionDate.None?
    ensures WellFormed(c)
  {
    Customer(id, phoneNumber, merchantId, branchId, assignedWorkerId, 0, now, None, None, Active)
  }

  /** The unique compound index on (phone number, merchant). */
  ghost predicate UniquePhonePerMerchant(customers: map<Id, Customer>)
  {
    forall a, b :: a in customers && b in customers && a != b ==>
      customers[a].phoneNumber != customers[b].phoneNumber ||
      customers[a].merchantId != customers[b].merchantId
  }

  /** `findByWorker`: the customers assigned to `workerId`, in collection order. */
  function FindByWorker(customers: seq<Customer>, workerId: Id): (r: seq<Customer>)
    ensures forall c :: c in r <==> c in customers && c.assignedWorkerId == Some(workerId)
    ensures forall c :: multiset(r)[c] == if c.assignedWorkerId == Some(workerId) then multiset(customers)[c] else 0
    ensures |r| <= |customers|
  {
    if customers == [] then []
    else
      assert customers == [customers[0]] + customers[1..];
      (if customers[0].assignedWorkerId == Some(workerId) then [customers[0]] else [])
      + FindByWorker(customers[1..], workerId)
  }

  /** `findByMerchant`: the customers of `merchantId`, in collection order. */
  function FindByMerchant(customers: seq<Customer>, merchantId: Id): (r: seq<Customer>)
    ensures forall c :: c in r <==> c in customers && c.merchantId == merchantId
    ensures forall c :: multiset(r)[c] == if c.merchantId == merchantId then multiset(customers)[c] else 0
    ensures |r| <= |customers|
  {
    if customers == [] then []
    else
      assert customers == [customers[0]] + customers[1..];
      (if customers[0].merchantId == merchantId then [customers[0]] else [])
      + FindByMerchant(customers[1..], merchantId)
  }

  /** `findByBranch`: the customers of `branchId`, in collection order. */
  function FindByBranch(customers: seq<Customer>, branchId: Id): (r: seq<Customer>)
    ensures forall c :: c in r <==> c in customers && c.branchId == branchId
    ensures forall c :: multiset(r)[c] == if c.branchId == branchId then multiset(customers)[c] else 0
    ensures |r| <= |customers|
  {
    if customers == [] then []
    else
      assert customers == [customers[0]] + customers[1..];
      (if customers[0].branchId == branchId then [customers[0]] else [])
      + FindByBranch(customers[1..], branchId)
  }
}
