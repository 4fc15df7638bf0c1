/** The merchant-facing handlers that change state
    (`src/controllers/merchantController.js`): worker and branch updates and soft
    deletes, worker creation, customer status, and the points settings. */
module MerchantController {
  import opened Common
  import opened MerchantSettingsModel
  import CustomerModel
  import opened Store
  import opened Audit

  datatype MerchantError =
    | NotFound            // 'Worker not found', 'Branch not found', 'Customer not found'
    | RefNotOwned         // 'Branch/Worker not found or does not belong to you'
    | InvalidStatus       // 'Invalid status'
    | EmailTaken          // 'Worker already exists with this email'
    | ValidationFailed    // a schema validator refused the update

  function StatusCode(e: MerchantError): Option<int>
  {
    match e
    case NotFound => Some(404)
    case RefNotOwned => Some(404)
    case InvalidStatus => Some(400)
    case EmailTaken => Some(400)
    case ValidationFailed => None   // decided by the application's error handler
  }

  const WorkerUpdateFields: set<string> :=
    {"sFirstName", "sLastName", "sPhoneNumber", "oBranchId", "sProfileImageUrl", "sStatus"}
  const BranchUpdateFields: set<string> :=
    {"sName", "sCity", "sState", "sAddress", "sBranchImageUrl", "oAssignedWorkerId", "sStatus"}
  const SettingsUpdateFields: set<string> :=
    {"nPointToCurrencyRate", "nMaxWalletBalance", "nMaxDailyRedemption", "nMaxCustomersLimit"}

  // ---------------------------------------------------------------------------
  // The allow-list filter

  /** The `forEach` over `Object.keys(req.body)` that copies the allowed keys into
      `filteredBody`: exactly the allowed keys of the body, with their values. */
  method FilterBody(body: map<string, Value>, allowed: set<string>) returns (filtered: map<string, Value>)
    ensures filtered.Keys == body.Keys * allowed
    ensures forall k :: k in filtered ==> filtered[k] == body[k]
  {
    filtered := map[];
    var keys := body.Keys;
    while keys != {}
      invariant keys <= body.Keys
      invariant filtered.Keys == (body.Keys - keys) * allowed
      invariant forall k :: k in filtered ==> filtered[k] == body[k]
      decreases keys
    {
      var key :| key in keys;
      if key in allowed {
        filtered := filtered[key := body[key]];
      }
      keys := keys - {key};
    }
  }

  /** `Model.findOne({ _id: ref, oMerchantId })` finds a record: the reference
      names a document of the calling merchant. */
  predicate OwnedRef(docs: map<Id, Doc>, ref: Value, merchantId: Id)
  {
    ref.Ref? && ref.id in docs && docs[ref.id].merchantId == merchantId
  }

  predicate Owned(docs: map<Id, Doc>, id: Id, merchantId: Id)
  {
    id in docs && docs[id].merchantId == merchantId
  }

  // ---------------------------------------------------------------------------
  // Updates and soft deletes of workers and branches

  /** `updateWorker` / `updateBranch` after filtering: a truthy reference field
      must name a document of the merchant (checked first), then the target must
      be the merchant's; the filtered fields are merged into it. */
  function UpdateOwnedSpec(docs: map<Id, Doc>, refs: map<Id, Doc>, merchantId: Id, id: Id,
                           filtered: map<string, Value>, refKey: string): Result<map<Id, Doc>, MerchantError>
  {
    if refKey in filtered && Truthy(filtered[refKey]) && !OwnedRef(refs, filtered[refKey], merchantId) then
      Err(RefNotOwned)
    else if !Owned(docs, id, merchantId) then Err(NotFound)
    else Ok(docs[id := docs[id].(fields := docs[id].fields + filtered)])
  }

  /** What an update may touch: only the target document, only the filtered keys,
      each set to its value from the body; owner and every other field stay. */
  lemma UpdateOwnedEffect(docs: map<Id, Doc>, refs: map<Id, Doc>, merchantId: Id, id: Id,
                          filtered: map<string, Value>, refKey: string)
    ensures var r := UpdateOwnedSpec(docs, refs, merchantId, id, filtered, refKey);
      && (r.Err? <==> (refKey in filtered && Truthy(filtered[refKey]) && !OwnedRef(refs, filtered[refKey], merchantId))
                      || !Owned(docs, id, merchantId))
      && (r.Ok? ==>
            && r.value.Keys == docs.Keys
            && (forall d :: d in docs && d != id ==> r.value[d] == docs[d])
            && r.value[id].merchantId == merchantId
            && r.value[id].fields.Keys == docs[id].fields.Keys + filtered.Keys
            && (forall k :: k in filtered ==> r.value[id].fields[k] == filtered[k])
            && (forall k :: k in docs[id].fields && k !in filtered ==> r.value[id].fields[k] == docs[id].fields[k]))
  {
  }

  /** An update whose filtered fields leave out `sEmail` keeps every worker's email. */
  lemma UpdateKeepsEmails(docs: map<Id, Doc>, id: Id, filtered: map<string, Value>)
    requires id in docs && "sEmail" !in filtered
    requires UniqueEmails(docs)
    ensures UniqueEmails(docs[id := docs[id].(fields := docs[id].fields + filtered)])
  {
    var d' := docs[id := docs[id].(fields := docs[id].fields + filtered)];
    assert EmailOf(d'[id]) == EmailOf(docs[id]);
    forall a | a in d' ensures EmailOf(d'[a]) == EmailOf(docs[a]) {
    }
  }

  /** `updateWorker`. */
  method UpdateWorker(db: Db, merchantId: Id, workerId: Id, body: map<string, Value>)
    returns (r: Result<Doc, MerchantError>)
    requires db.Valid()
    modifies db
    ensures db.Valid()
    ensures var filtered := map k | k in body.Keys * WorkerUpdateFields :: body[k];
      var spec := UpdateOwnedSpec(old(db.workers), old(db.branches), merchantId, workerId, filtered, "oBranchId");
      && (r.Err? <==> spec.Err?)
      && (spec.Err? ==> r.error == spec.error && db.workers == old(db.workers))
      && (spec.Ok? ==> db.workers == spec.value && r.value == db.workers[workerId])
    ensures db.customers == old(db.customers) && db.transactions == old(db.transactions)
    ensures db.settings == old(db.settings) && db.branches == old(db.branches)
  {
    var filtered := FilterBody(body, WorkerUpdateFields);
    assert filtered == map k | k in body.Keys * WorkerUpdateFields :: body[k];
    if "oBranchId" in filtered && Truthy(filtered["oBranchId"]) {
      if !OwnedRef(db.branches, filtered["oBranchId"], merchantId) {
        return Err(RefNotOwned);
      }
    }
    if !(workerId in db.workers && db.workers[workerId].merchantId == merchantId) {
      return Err(NotFound);
    }
    UpdateKeepsEmails(db.workers, workerId, filtered);
    var worker := db.workers[workerId].(fields := db.workers[workerId].fields + filtered);
    db.workers := db.workers[workerId := worker];
    r := Ok(worker);
  }

  /** `updateBranch`. */
  method UpdateBranch(db: Db, merchantId: Id, branchId: Id, body: map<string, Value>)
    returns (r: Result<Doc, MerchantError>)
    requires db.Valid()
    modifies db
    ensures db.Valid()
    ensures var filtered := map k | k in body.Keys * BranchUpdateFields :: body[k];
      var spec := UpdateOwnedSpec(old(db.branches), old(db.workers), merchantId, branchId, filtered, "oAssignedWorkerId");
      && (r.Err? <==> spec.Err?)
      && (spec.Err? ==> r.error == spec.error && db.branches == old(db.branches))
      && (spec.Ok? ==> db.branches == spec.value && r.value == db.branches[branchId])
    ensures db.customers == old(db.customers) && db.transactions == old(db.transactions)
    ensures db.settings == old(db.settings) && db.workers == old(db.workers)
  {
    var filtered := FilterBody(body, BranchUpdateFields);
    assert filtered == map k | k in body.Keys * BranchUpdateFields :: body[k];
    if "oAssignedWorkerId" in filtered && Truthy(filtered["oAssignedWorkerId"]) {
      if !OwnedRef(db.workers, filtered["oAssignedWorkerId"], merchantId) {
        return Err(RefNotOwned);
      }
    }
    if !(branchId in db.branches && db.branches[branchId].merchantId == merchantId) {
      return Err(NotFound);
    }
    var branch := db.branches[branchId].(fields := db.branches[branchId].fields + filtered);
    db.branches := db.branches[branchId := branch];
    r := Ok(branch);
  }

  /** The document after a soft delete: `sStatus` set to `inactive`. */
  function Deactivated(d: Doc): (d': Doc)
    ensures d'.merchantId == d.merchantId
    ensures d'.fields.Keys == d.fields.Keys + {"sStatus"} && d'.fields["sStatus"] == Text("inactive")
    ensures forall k :: k in d.fields && k != "sStatus" ==> d'.fields[k] == d.fields[k]
  {
    d.(fields := d.fields["sStatus" := Text("inactive")])
  }

  /** `deleteWorker`: a soft delete of one of the merchant's workers. */
  method DeleteWorker(db: Db, merchantId: Id, workerId: Id) returns (r: Result<Doc, MerchantError>)
    requires db.Valid()
    modifies db
    ensures db.Valid()
    ensures r.Err? <==> !Owned(old(db.workers), workerId, merchantId)
    ensures r.Err? ==> r.error == NotFound && db.workers == old(db.workers)
    ensures r.Ok? ==> db.workers == old(db.workers)[workerId := Deactivated(old(db.workers)[workerId])]
                      && r.value == db.workers[workerId]
    ensures db.workers.Keys == old(db.workers.Keys)
    ensures db.customers == old(db.customers) && db.transactions == old(db.transactions)
    ensures db.settings == old(db.settings) && db.branches == old(db.branches)
  {
    if !(workerId in db.workers && db.workers[workerId].merchantId == merchantId) {
      return Err(NotFound);
    }
    var worker := Deactivated(db.workers[workerId]);
    assert EmailOf(worker) == EmailOf(db.workers[workerId]);
    db.workers := db.workers[workerId := worker];
    r := Ok(worker);
    assert forall a :: a in db.workers ==> EmailOf(db.workers[a]) == EmailOf(old(db.workers)[a]);
  }

  /** `deleteBranch`: a soft delete of one of the merchant's branches. */
  method DeleteBranch(db: Db, merchantId: Id, branchId: Id) returns (r: Result<Doc, MerchantError>)
    requires db.Valid()
    modifies db
    ensures db.Valid()
    ensures r.Err? <==> !Owned(old(db.branches), branchId, merchantId)
    ensures r.Err? ==> r.error == NotFound && db.branches == old(db.branches)
    ensures r.Ok? ==> db.branches == old(db.branches)[branchId := Deactivated(old(db.branches)[branchId])]
                      && r.value == db.branches[branchId]
    ensures db.branches.Keys == old(db.branches.Keys)
    ensures db.customers == old(db.customers) && db.transactions == old(db.transactions)
    ensures db.settings == old(db.settings) && db.workers == old(db.workers)
  {
    if !(branchId in db.branches && db.branches[branchId].merchantId == merchantId) {
      return Err(NotFound);
    }
    var branch := Deactivated(db.branches[branchId]);
    db.branches := db.branches[branchId := branch];
    r := Ok(branch);
  }

  /** `createWorker`: an email already on file (compared lower-cased) is refused
      before anything else; a truthy branch must be the merchant's. Name, phone
      and password are not modelled; the status takes its default `active`. */
  method CreateWorker(db: Db, merchantId: Id, email: string, branchRef: Value, newId: Id)
    returns (r: Result<Doc, MerchantError>)
    requires db.Valid()
    requires newId !in db.workers
    modifies db
    ensures db.Valid()
    ensures (exists w :: w in old(db.workers) && EmailOf(old(db.workers)[w]) == Some(Lower(email)))
              ==> r == Err(EmailTaken)
    ensures r.Err? <==>
              (exists w :: w in old(db.workers) && EmailOf(old(db.workers)[w]) == Some(Lower(email)))
              || (Truthy(branchRef) && !OwnedRef(old(db.branches), branchRef, merchantId))
    ensures (&& !(exists w :: w in old(db.workers) && EmailOf(old(db.workers)[w]) == Some(Lower(email)))
             && Truthy(branchRef) && !OwnedRef(old(db.branches), branchRef, merchantId))
              ==> r == Err(RefNotOwned)
    ensures r.Err? ==> db.workers == old(db.workers)
    ensures r.Ok? ==> db.workers == old(db.workers)[newId := r.value] && r.value.merchantId == merchantId
                      && EmailOf(r.value) == Some(Lower(email))
    ensures r.Ok? ==> Lower(EmailOf(r.value).value) == EmailOf(r.value).value
    ensures db.customers == old(db.customers) && db.transactions == old(db.transactions)
    ensures db.settings == old(db.settings) && db.branches == old(db.branches)
  {
    var lower := Lower(email);
    var taken := exists w :: w in db.workers && EmailOf(db.workers[w]) == Some(lower);
    if taken {
      return Err(EmailTaken);
    }
    if Truthy(branchRef) && !OwnedRef(db.branches, branchRef, merchantId) {
      return Err(RefNotOwned);
    }
    var fields := map["sEmail" := Text(lower), "sStatus" := Text("active")];
    if Truthy(branchRef) {
      fields := fields["oBranchId" := branchRef];
    }
    var worker := Doc(merchantId, fields);
    assert EmailOf(worker) == Some(lower);
    LowerIdempotent(email);
    db.workers := db.workers[newId := worker];
    r := Ok(worker);
  }

  // ---------------------------------------------------------------------------
  // Customer status

  /** `updateCustomerStatus`: only `active` or `inactive`, only on the merchant's
      own customer, and only the status changes. */
  method UpdateCustomerStatus(db: Db, merchantId: Id, customerId: Id, status: string)
    returns (r: Result<CustomerModel.Customer, MerchantError>)
    requires db.Valid()
    modifies db
    ensures db.Valid()
    ensures r == Err(InvalidStatus) <==> status != "active" && status != "inactive"
    ensures r == Err(NotFound) <==>
              (status == "active" || status == "inactive")
              && !(customerId in old(db.customers) && old(db.customers)[customerId].merchantId == merchantId)
    ensures r.Ok? <==>
              (status == "active" || status == "inactive")
              && customerId in old(db.customers) && old(db.customers)[customerId].merchantId == merchantId
    ensures r.Err? ==> db.customers == old(db.customers)
    ensures r.Ok? ==>
      && customerId in old(db.customers)
      && r.value == old(db.customers)[customerId].(status := CustomerModel.ParseStatus(status).value)
      && CustomerModel.StatusName(r.value.status) == status
      && db.customers == old(db.customers)[customerId := r.value]
    ensures db.transactions == old(db.transactions) && db.settings == old(db.settings)
    ensures db.workers == old(db.workers) && db.branches == old(db.branches)
  {
    var parsed := CustomerModel.ParseStatus(status);
    if parsed.None? {
      return Err(InvalidStatus);
    }
    if !(customerId in db.customers && db.customers[customerId].merchantId == merchantId) {
      return Err(NotFound);
    }
    var customer := db.customers[customerId].(status := parsed.value);
    StatusChangeKeepsValid(db.CurrentLedger(), customerId, parsed.value);
    StoreCustomer(db, customerId, customer);
    r := Ok(customer);
  }

  /** `findOneAndUpdate` on one customer record, when the ledger it leaves is valid. */
  method StoreCustomer(db: Db, customerId: Id, customer: CustomerModel.Customer)
    requires db.Valid()
    requires LedgerValid(Ledger(db.customers[customerId := customer], db.transactions))
    modifies db
    ensures db.Valid()
    ensures db.customers == old(db.customers)[customerId := customer]
    ensures db.transactions == old(db.transactions) && db.settings == old(db.settings)
    ensures db.workers == old(db.workers) && db.branches == old(db.branches)
  {
    db.customers := db.customers[customerId := customer];
    assert db.CurrentLedger() == Ledger(db.customers, db.transactions);
  }

  /** Changing a customer's status touches neither its balance nor the log, so the
      ledger stays valid. */
  lemma StatusChangeKeepsValid(l: Ledger, customerId: Id, status: CustomerModel.CustomerStatus)
    requires LedgerValid(l) && customerId in l.customers
    ensures LedgerValid(Ledger(l.customers[customerId := l.customers[customerId].(status := status)], l.log))
  {
    var m := l.customers[customerId := l.customers[customerId].(status := status)];
    forall a | a in m
      ensures m[a].phoneNumber == l.customers[a].phoneNumber && m[a].merchantId == l.customers[a].merchantId
      ensures m[a].walletBalance == l.customers[a].walletBalance && m[a].id == l.customers[a].id
    {
    }
  }

  // ---------------------------------------------------------------------------
  // Points settings

  /** `getPointsSettings` as a function of the settings collection: the existing
      record, or a new default record appended to the collection. */
  function GetOrCreateSpec(table: seq<MerchantSettings>, merchantId: Id): (seq<MerchantSettings>, MerchantSettings)
  {
    match FindByMerchant(table, merchantId)
    case Some(s) => (table, s)
    case None => (table + [Default(merchantId)], Default(merchantId))
  }

  /** Get-or-create returns the existing record untouched when there is one;
      otherwise it appends exactly the default record. Either way the merchant then
      has exactly one record, the one returned, and the collection stays valid. */
  lemma GetOrCreateEffect(table: seq<MerchantSettings>, merchantId: Id)
    requires ValidTable(table)
    ensures var (t', s) := GetOrCreateSpec(table, merchantId);
      && ValidTable(t')
      && s.merchantId == merchantId
      && FindByMerchant(t', merchantId) == Some(s)
      && CountFor(t', merchantId) == 1
      && (FindByMerchant(table, merchantId).Some? ==> t' == table && Some(s) == FindByMerchant(table, merchantId))
      && (FindByMerchant(table, merchantId).None? ==> t' == table + [Default(merchantId)] && s == Default(merchantId))
  {
    var (t', s) := GetOrCreateSpec(table, merchantId);
    match FindByMerchant(table, merchantId)
    case Some(found) => {
      var k :| 0 <= k < |table| && table[k] == found;
      UniqueLookup(table, merchantId, k);
    }
    case None => {
      AppendFresh(table, Default(merchantId));
      UniqueLookup(t', merchantId, |table|);
    }
  }

  /** A second get-or-create returns the same record and changes nothing. */
  lemma GetOrCreateIdempotent(table: seq<MerchantSettings>, merchantId: Id)
    requires ValidTable(table)
    ensures var (t1, s1) := GetOrCreateSpec(table, merchantId);
      GetOrCreateSpec(t1, merchantId) == (t1, s1)
  {
    GetOrCreateEffect(table, merchantId);
  }

  /** Appending a record of a merchant that has none keeps the collection valid. */
  lemma AppendFresh(table: seq<MerchantSettings>, s: MerchantSettings)
    requires ValidTable(table) && WithinBounds(s)
    requires FindByMerchant(table, s.merchantId).None?
    ensures ValidTable(table + [s])
  {
    var t' := table + [s];
    forall i, j | 0 <= i < j < |t'| ensures t'[i].merchantId != t'[j].merchantId {
      if j == |table| { assert t'[i] == table[i]; } else { assert t'[i] == table[i] && t'[j] == table[j]; }
    }
    forall i | 0 <= i < |t'| ensures WithinBounds(t'[i]) {
      if i < |table| { assert t'[i] == table[i]; }
    }
  }

  /** `getPointsSettings`. */
  method GetPointsSettings(db: Db, merchantId: Id) returns (s: MerchantSettings)
    requires db.Valid()
    modifies db
    ensures db.Valid()
    ensures (db.settings, s) == GetOrCreateSpec(old(db.settings), merchantId)
    ensures FindByMerchant(db.settings, merchantId) == Some(s) && CountFor(db.settings, merchantId) == 1
    ensures db.customers == old(db.customers) && db.transactions == old(db.transactions)
    ensures db.workers == old(db.workers) && db.branches == old(db.branches)
  {
    GetOrCreateEffect(db.settings, merchantId);
    var found := FindByMerchant(db.settings, merchantId);
    if found.Some? {
      s := found.value;
    } else {
      s := Default(merchantId);
      db.settings := db.settings + [s];
    }
  }

  /** Casting and validating the body value of a rate field. */
  function CastRate(v: Value): Option<real>
  {
    match v
    case Int(i) => if i as real >= MinPointToCurrencyRate then Some(i as real) else None
    case Dec(r) => if r >= MinPointToCurrencyRate then Some(r) else None
    case _ => None
  }

  /** Casting and validating the body value of a whole-number limit with minimum `min`. */
  function CastLimit(v: Value, min: int): Option<int>
  {
    if v.Int? && v.i >= min then Some(v.i) else None
  }

  /** The body passes the schema's casts and minimums: every field it carries casts. */
  predicate SettingsBodyValid(filtered: map<string, Value>)
  {
    && ("nPointToCurrencyRate" in filtered ==> CastRate(filtered["nPointToCurrencyRate"]).Some?)
    && ("nMaxWalletBalance" in filtered ==> CastLimit(filtered["nMaxWalletBalance"], 0).Some?)
    && ("nMaxDailyRedemption" in filtered ==> CastLimit(filtered["nMaxDailyRedemption"], 0).Some?)
    && ("nMaxCustomersLimit" in filtered ==> CastLimit(filtered["nMaxCustomersLimit"], 1).Some?)
  }

  /** Overwrites the filtered fields of `base` (`runValidators: true`): `None` when a
      value fails its cast or its minimum. */
  function ApplySettingsUpdate(base: MerchantSettings, filtered: map<string, Value>): (r: Option<MerchantSettings>)
    ensures r.Some? <==> SettingsBodyValid(filtered)
    ensures r.Some? ==> r.value.merchantId == base.merchantId
    ensures r.Some? && WithinBounds(base) ==> WithinBounds(r.value)
  {
    var rate := if "nPointToCurrencyRate" in filtered then CastRate(filtered["nPointToCurrencyRate"]) else Some(base.pointToCurrencyRate);
    var wallet := if "nMaxWalletBalance" in filtered then CastLimit(filtered["nMaxWalletBalance"], 0) else Some(base.maxWalletBalance);
    var daily := if "nMaxDailyRedemption" in filtered then CastLimit(filtered["nMaxDailyRedemption"], 0) else Some(base.maxDailyRedemption);
    var customers := if "nMaxCustomersLimit" in filtered then CastLimit(filtered["nMaxCustomersLimit"], 1) else Some(base.maxCustomersLimit);
    if rate.None? || wallet.None? || daily.None? || customers.None? then None
    else Some(MerchantSettings(base.merchantId, rate.value, wallet.value, daily.value, customers.value))
  }

  /** The settings collection with the merchant's record replaced by `s`. */
  function Replace(table: seq<MerchantSettings>, s: MerchantSettings): (t: seq<MerchantSettings>)
    ensures |t| == |table|
    ensures forall i :: 0 <= i < |t| ==> t[i] == if table[i].merchantId == s.merchantId then s else table[i]
  {
    if table == [] then []
    else [if table[0].merchantId == s.merchantId then s else table[0]] + Replace(table[1..], s)
  }

  /** `findOneAndUpdate({ oMerchantId }, filteredBody, { upsert: true, runValidators: true })`:
      the existing record, or a default one when there is none, with the filtered
      fields overwritten. */
  function UpsertSpec(table: seq<MerchantSettings>, merchantId: Id, filtered: map<string, Value>)
    : Result<(seq<MerchantSettings>, MerchantSettings), MerchantError>
  {
    var existing := FindByMerchant(table, merchantId);
    var base := if existing.Some? then existing.value else Default(merchantId);
    match ApplySettingsUpdate(base, filtered)
    case None => Err(ValidationFailed)
    case Some(s) => if existing.Some? then Ok((Replace(table, s), s)) else Ok((table + [s], s))
  }

  /** Each filtered field of an accepted update holds the body's value; every
      other field keeps the value it had in `base`. */
  lemma ApplySettingsUpdateFields(base: MerchantSettings, filtered: map<string, Value>)
    ensures var r := ApplySettingsUpdate(base, filtered);
      r.Some? ==>
        var s := r.value;
        && ("nPointToCurrencyRate" !in filtered ==> s.pointToCurrencyRate == base.pointToCurrencyRate)
        && ("nMaxWalletBalance" !in filtered ==> s.maxWalletBalance == base.maxWalletBalance)
        && ("nMaxDailyRedemption" !in filtered ==> s.maxDailyRedemption == base.maxDailyRedemption)
        && ("nMaxCustomersLimit" !in filtered ==> s.maxCustomersLimit == base.maxCustomersLimit)
        && ("nMaxWalletBalance" in filtered ==> filtered["nMaxWalletBalance"] == Value.Int(s.maxWalletBalance))
        && ("nMaxDailyRedemption" in filtered ==> filtered["nMaxDailyRedemption"] == Value.Int(s.maxDailyRedemption))
        && ("nMaxCustomersLimit" in filtered ==> filtered["nMaxCustomersLimit"] == Value.Int(s.maxCustomersLimit))
        && ("nPointToCurrencyRate" in filtered ==> CastRate(filtered["nPointToCurrencyRate"]) == Some(s.pointToCurrencyRate))
  {
  }

  /** The record side of an accepted upsert: the merchant ends with exactly one
      record, the one returned; the other merchants' lookups are untouched and the
      collection stays valid. */
  lemma UpsertRecords(table: seq<MerchantSettings>, merchantId: Id, filtered: map<string, Value>)
    requires ValidTable(table)
    ensures var r := UpsertSpec(table, merchantId, filtered);
      r.Ok? ==>
        var (t', s) := r.value;
        && ValidTable(t')
        && s.merchantId == merchantId
        && CountFor(t', merchantId) == 1 && FindByMerchant(t', merchantId) == Some(s)
        && (forall other :: other != merchantId ==> FindByMerchant(t', other) == FindByMerchant(table, other))
  {
    var r := UpsertSpec(table, merchantId, filtered);
    var existing := FindByMerchant(table, merchantId);
    if r.Ok? {
      var (t', s) := r.value;
      if existing.Some? {
        var k :| 0 <= k < |table| && table[k] == existing.value;
        UniqueLookup(table, merchantId, k);
        ReplaceEffect(table, s, k);
      } else {
        AppendFresh(table, s);
        UniqueLookup(t', merchantId, |table|);
        forall other | other != merchantId ensures FindByMerchant(t', other) == FindByMerchant(table, other) {
          FindAppendOther(table, s, other);
        }
      }
    }
  }

  /** After an accepted upsert the merchant has exactly one record, the one
      returned; each filtered field holds the body's value, every unmentioned field
      is as before (or at its default for a new record), the other merchants'
      records are untouched and the collection stays valid. */
  lemma UpsertEffect(table: seq<MerchantSettings>, merchantId: Id, filtered: map<string, Value>)
    requires ValidTable(table)
    ensures var r := UpsertSpec(table, merchantId, filtered);
      var base := if FindByMerchant(table, merchantId).Some? then FindByMerchant(table, merchantId).value
                  else Default(merchantId);
      && (r.Ok? <==> SettingsBodyValid(filtered))
      && (r.Err? ==> r.error == ValidationFailed)
      && (r.Ok? ==>
        var (t', s) := r.value;
        && ValidTable(t')
        && CountFor(t', merchantId) == 1 && FindByMerchant(t', merchantId) == Some(s)
        && (forall other :: other != merchantId ==> FindByMerchant(t', other) == FindByMerchant(table, other))
        && ApplySettingsUpdate(base, filtered) == Some(s))
  {
    UpsertRecords(table, merchantId, filtered);
  }

  /** Replacing the unique record at `k` keeps the collection valid and leaves the
      other merchants' lookups unchanged. */
  lemma ReplaceEffect(table: seq<MerchantSettings>, s: MerchantSettings, k: nat)
    requires ValidTable(table) && WithinBounds(s)
    requires k < |table| && table[k].merchantId == s.merchantId
    ensures ValidTable(Replace(table, s))
    ensures CountFor(Replace(table, s), s.merchantId) == 1
    ensures FindByMerchant(Replace(table, s), s.merchantId) == Some(s)
    ensures forall other :: other != s.merchantId ==> FindByMerchant(Replace(table, s), other) == FindByMerchant(table, other)
  {
    var t' := Replace(table, s);
    assert forall i :: 0 <= i < |t'| ==> t'[i].merchantId == table[i].merchantId;
    assert t'[k] == s;
    UniqueLookup(t', s.merchantId, k);
    forall other | other != s.merchantId ensures FindByMerchant(t', other) == FindByMerchant(table, other) {
      FindReplaceOther(table, s, other);
    }
  }

  lemma {:induction false} FindReplaceOther(table: seq<MerchantSettings>, s: MerchantSettings, other: Id)
    requires other != s.merchantId
    ensures FindByMerchant(Replace(table, s), other) == FindByMerchant(table, other)
  {
    if table != [] {
      assert Replace(table, s)[1..] == Replace(table[1..], s);
      FindReplaceOther(table[1..], s, other);
    }
  }

  lemma {:induction false} FindAppendOther(table: seq<MerchantSettings>, s: MerchantSettings, other: Id)
    requires other != s.merchantId
    ensures FindByMerchant(table + [s], other) == FindByMerchant(table, other)
  {
    if table == [] {
      assert ([] + [s])[1..] == [];
    } else {
      assert (table + [s])[1..] == table[1..] + [s];
      FindAppendOther(table[1..], s, other);
    }
  }

  /** An upsert is accepted exactly when the body passes the schema's validators. */
  lemma UpsertAccepts(table: seq<MerchantSettings>, merchantId: Id, filtered: map<string, Value>)
    ensures UpsertSpec(table, merchantId, filtered).Ok? <==> SettingsBodyValid(filtered)
  {
  }

  /** An accepted upsert leaves a valid collection. */
  lemma UpsertKeepsValid(table: seq<MerchantSettings>, merchantId: Id, filtered: map<string, Value>)
    requires ValidTable(table)
    ensures UpsertSpec(table, merchantId, filtered).Ok? ==> ValidTable(UpsertSpec(table, merchantId, filtered).value.0)
  {
    UpsertRecords(table, merchantId, filtered);
  }

  /** `updatePointsSettings`. */
  method UpdatePointsSettings(db: Db, merchantId: Id, body: map<string, Value>)
    returns (r: Result<MerchantSettings, MerchantError>)
    requires db.Valid()
    modifies db
    ensures db.Valid()
    ensures var filtered := map k | k in body.Keys * SettingsUpdateFields :: body[k];
      r.Ok? <==> SettingsBodyValid(filtered)
    ensures var filtered := map k | k in body.Keys * SettingsUpdateFields :: body[k];
      var spec := UpsertSpec(old(db.settings), merchantId, filtered);
      && (spec.Err? ==> r == Err(spec.error) && db.settings == old(db.settings))
      && (spec.Ok? ==> r == Ok(spec.value.1) && db.settings == spec.value.0)
    ensures db.customers == old(db.customers) && db.transactions == old(db.transactions)
    ensures db.workers == old(db.workers) && db.branches == old(db.branches)
  {
    var filtered := FilterBody(body, SettingsUpdateFields);
    assert filtered == map k | k in body.Keys * SettingsUpdateFields :: body[k];
    UpsertKeepsValid(db.settings, merchantId, filtered);
    UpsertAccepts(db.settings, merchantId, filtered);
    var existing := FindByMerchant(db.settings, merchantId);
    var base := if existing.Some? then existing.value else Default(merchantId);
    var updated := ApplySettingsUpdate(base, filtered);
    if updated.None? {
      return Err(ValidationFailed);
    }
    if existing.Some? {
      db.settings := Replace(db.settings, updated.value);
    } else {
      db.settings := db.settings + [updated.value];
    }
    r := Ok(updated.value);
  }
}
