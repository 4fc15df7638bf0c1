/** The wallet transaction engine of the worker-facing handlers
    (`src/controllers/workerController.js`): top-up (credit) and redemption
    (debit) of a customer's points, and the customer's transaction listing. */
module WorkerController {
  import opened Common
  import MerchantSettingsModel
  import opened CustomerModel
  import opened TransactionModel
  import opened Audit
  import opened Store
  import opened Pagination

  /** The body of a top-up or redeem request: either amount may be missing. */
  datatype TxRequest = TxRequest(customerId: Id, workerId: Id, points: Option<int>, cashValue: Option<real>)

  datatype EngineError =
    | InvalidAmount
    | CustomerNotAccessible
    | WalletLimitExceeded(maxWalletBalance: int)
    | InsufficientBalance
    | DailyLimitExceeded(maxDailyRedemption: int)

  function StatusCode(e: EngineError): int
  {
    if e.CustomerNotAccessible? then 404 else 400
  }

  /** The 201 response: the created transaction and the new balance. */
  datatype Receipt = Receipt(transaction: Transaction, newWalletBalance: int)

  /** A handler's response together with the ledger it leaves behind. */
  datatype Step = Step(result: Result<Receipt, EngineError>, ledger: Ledger)

  const FallbackMaxWalletBalance: int := 10000
  const FallbackMaxDailyRedemption: int := 1000

  /** `!nPoints || !nCashEquivalentValue || nPoints <= 0 || nCashEquivalentValue <= 0`
      fails exactly when an amount is missing, zero or negative. */
  predicate ValidAmounts(q: TxRequest)
  {
    q.points.Some? && q.points.value > 0 && q.cashValue.Some? && q.cashValue.value > 0.0
  }

  /** `findOne({ _id, oAssignedWorkerId: worker, sStatus: 'active' })` finds a record. */
  predicate Accessible(customers: map<Id, Customer>, customerId: Id, workerId: Id)
  {
    customerId in customers
    && customers[customerId].assignedWorkerId == Some(workerId)
    && customers[customerId].status == Active
  }

  /** `settings?.nMaxWalletBalance || 10000`: a missing record or a stored 0 falls
      back to 10000. */
  function EffectiveMaxWallet(s: Option<MerchantSettingsModel.MerchantSettings>): (max: int)
    ensures s.None? ==> max == FallbackMaxWalletBalance
    ensures s.Some? && s.value.maxWalletBalance == 0 ==> max == FallbackMaxWalletBalance
    ensures s.Some? && s.value.maxWalletBalance != 0 ==> max == s.value.maxWalletBalance
    ensures max != 0
  {
    if s.Some? && s.value.maxWalletBalance != 0 then s.value.maxWalletBalance else FallbackMaxWalletBalance
  }

  /** `settings?.nMaxDailyRedemption || 1000`, with the same fall-back rule. */
  function EffectiveMaxDaily(s: Option<MerchantSettingsModel.MerchantSettings>): (max: int)
    ensures s.None? ==> max == FallbackMaxDailyRedemption
    ensures s.Some? && s.value.maxDailyRedemption == 0 ==> max == FallbackMaxDailyRedemption
    ensures s.Some? && s.value.maxDailyRedemption != 0 ==> max == s.value.maxDailyRedemption
    ensures max != 0
  {
    if s.Some? && s.value.maxDailyRedemption != 0 then s.value.maxDailyRedemption else FallbackMaxDailyRedemption
  }

  /** The admin commission on a cash value at `percent` per cent: never negative and
      never more than the cash value itself. */
  function Commission(cashValue: real, percent: real): (c: real)
    requires cashValue >= 0.0 && 0.0 <= percent <= 100.0
    ensures 0.0 <= c <= cashValue
    ensures c * 100.0 == cashValue * percent
  {
    CommissionBounds(cashValue, percent);
    cashValue * percent / 100.0
  }

  lemma CommissionBounds(cashValue: real, percent: real)
    requires cashValue >= 0.0 && 0.0 <= percent <= 100.0
    ensures 0.0 <= cashValue * percent <= cashValue * 100.0
  {
  }

  /** The percent the handlers compute with as written: they read
      `settings.nCommissionPercent`, a field the settings record does not have, so
      `undefined || 0` makes it 0 whatever the merchant's configured percent. */
  function AsWrittenCommissionPercent(settings: Option<MerchantSettingsModel.MerchantSettings>): real
  {
    0.0
  }

  /** The merchant's configured percent (5) is lost as written: a 500 top-up is
      recorded with commission 0 where 25 is intended. */
  lemma AsWrittenCommissionIgnoresMerchantPercent(settings: Option<MerchantSettingsModel.MerchantSettings>)
    ensures Commission(500.0, AsWrittenCommissionPercent(settings)) == 0.0
    ensures Commission(500.0, 5.0) == 25.0
  {
  }

  /** As written, every entry the engine records carries commission 0, for top-ups
      and redemptions alike, whatever the settings record holds. */
  lemma AsWrittenEntriesCarryNoCommission(l: Ledger, settings: seq<MerchantSettingsModel.MerchantSettings>,
                                          q: TxRequest, now: int, today: int, tomorrow: int)
    ensures q.customerId in l.customers ==>
      var percent := AsWrittenCommissionPercent(
        MerchantSettingsModel.FindByMerchant(settings, l.customers[q.customerId].merchantId));
      && (TopupSpec(l, settings, q, percent, now).result.Ok? ==>
            TopupSpec(l, settings, q, percent, now).result.value.transaction.adminCommissionValue == 0.0)
      && (RedeemSpec(l, settings, q, percent, now, today, tomorrow).result.Ok? ==>
            RedeemSpec(l, settings, q, percent, now, today, tomorrow).result.value.transaction.adminCommissionValue == 0.0)
  {
  }

  /** The customer record after a balance change; only a credit may set the
      first-transaction date, and only when it was unset. */
  function Touch(c: Customer, newBalance: int, now: int, isCredit: bool): (c': Customer)
    ensures c'.walletBalance == newBalance && c'.lastTransactionDate == Some(now)
    ensures c'.firstTransactionDate ==
              if isCredit && c.firstTransactionDate.None? then Some(now) else c.firstTransactionDate
    ensures c' == c.(walletBalance := c'.walletBalance, lastTransactionDate := c'.lastTransactionDate,
                     firstTransactionDate := c'.firstTransactionDate)
  {
    var first := if isCredit then (if c.firstTransactionDate.Some? then c.firstTransactionDate else Some(now))
                 else c.firstTransactionDate;
    c.(walletBalance := newBalance, lastTransactionDate := Some(now), firstTransactionDate := first)
  }

  /** The transaction the handlers create: references copied from the customer,
      the worker from the caller, pay status left at its default `unpaid`, dated now. */
  function NewTransaction(c: Customer, workerId: Id, txType: TxType, points: int, cashValue: real,
                          commission: real, now: int, newBalance: int): (t: Transaction)
    ensures t.customerId == c.id && t.merchantId == c.merchantId && t.branchId == c.branchId
    ensures t.workerId == workerId && t.txType == txType && t.points == points
    ensures t.cashEquivalentValue == cashValue && t.adminCommissionValue == commission
    ensures t.payStatus == Unpaid && t.date == now && t.walletBalanceAfter == newBalance
  {
    Transaction(c.id, c.merchantId, c.branchId, workerId, txType, points, cashValue, commission,
                Unpaid, now, newBalance)
  }

  /** `topupCustomer`, as a function of the ledger before the request. */
  function TopupSpec(l: Ledger, settings: seq<MerchantSettingsModel.MerchantSettings>, q: TxRequest,
                     percent: real, now: int): Step
    requires 0.0 <= percent <= 100.0
  {
    if !ValidAmounts(q) then Step(Err(InvalidAmount), l)
    else if !Accessible(l.customers, q.customerId, q.workerId) then Step(Err(CustomerNotAccessible), l)
    else
      var c := l.customers[q.customerId];
      var points := q.points.value;
      var maxWallet := EffectiveMaxWallet(MerchantSettingsModel.FindByMerchant(settings, c.merchantId));
      if c.walletBalance + points > maxWallet then Step(Err(WalletLimitExceeded(maxWallet)), l)
      else
        var newBalance := c.walletBalance + points;
        var t := NewTransaction(c, q.workerId, Credit, points, q.cashValue.value,
                                Commission(q.cashValue.value, percent), now, newBalance);
        Step(Ok(Receipt(t, newBalance)),
             Ledger(l.customers[q.customerId := Touch(c, newBalance, now, true)], l.log + [t]))
  }

  /** `redeemFromCustomer`, as a function of the ledger before the request; the
      day runs from `today` (inclusive) to `tomorrow` (exclusive). */
  function RedeemSpec(l: Ledger, settings: seq<MerchantSettingsModel.MerchantSettings>, q: TxRequest,
                      percent: real, now: int, today: int, tomorrow: int): Step
    requires 0.0 <= percent <= 100.0
  {
    if !ValidAmounts(q) then Step(Err(InvalidAmount), l)
    else if !Accessible(l.customers, q.customerId, q.workerId) then Step(Err(CustomerNotAccessible), l)
    else
      var c := l.customers[q.customerId];
      var points := q.points.value;
      if c.walletBalance < points then Step(Err(InsufficientBalance), l)
      else
        var maxDaily := EffectiveMaxDaily(MerchantSettingsModel.FindByMerchant(settings, c.merchantId));
        var redeemedToday := TodayDebitSum(l.log, c.id, today, tomorrow);
        if redeemedToday + points > maxDaily then Step(Err(DailyLimitExceeded(maxDaily)), l)
        else
          var newBalance := c.walletBalance - points;
          var t := NewTransaction(c, q.workerId, Debit, points, q.cashValue.value,
                                  Commission(q.cashValue.value, percent), now, newBalance);
          Step(Ok(Receipt(t, newBalance)),
               Ledger(l.customers[q.customerId := Touch(c, newBalance, now, false)], l.log + [t]))
  }

  // ---------------------------------------------------------------------------
  // What a top-up decides and what it writes

  /** Each rejection of a top-up, in the order the handler checks, and that a
      rejection changes nothing. */
  lemma TopupRejections(l: Ledger, settings: seq<MerchantSettingsModel.MerchantSettings>, q: TxRequest,
                        percent: real, now: int)
    requires 0.0 <= percent <= 100.0
    ensures var st := TopupSpec(l, settings, q, percent, now);
      && (st.result == Err(InvalidAmount) <==> !ValidAmounts(q))
      && (st.result == Err(CustomerNotAccessible) <==>
            ValidAmounts(q) && !Accessible(l.customers, q.customerId, q.workerId))
      && (st.result.Err? && st.result.error.WalletLimitExceeded? <==>
            && ValidAmounts(q) && Accessible(l.customers, q.customerId, q.workerId)
            && var c := l.customers[q.customerId];
               c.walletBalance + q.points.value > EffectiveMaxWallet(MerchantSettingsModel.FindByMerchant(settings, c.merchantId)))
      && (st.result.Err? ==> st.ledger == l)
      && (st.result.Err? && st.result.error.WalletLimitExceeded? ==>
            st.result.error.maxWalletBalance ==
              EffectiveMaxWallet(MerchantSettingsModel.FindByMerchant(settings, l.customers[q.customerId].merchantId)))
  {
  }

  /** An accepted top-up credits exactly the requested points, stays within the
      ceiling, appends one credit whose snapshot is the new balance, and changes
      only that customer's balance and dates. */
  lemma TopupAccepted(l: Ledger, settings: seq<MerchantSettingsModel.MerchantSettings>, q: TxRequest,
                      percent: real, now: int)
    requires 0.0 <= percent <= 100.0
    requires TopupSpec(l, settings, q, percent, now).result.Ok?
    ensures var st := TopupSpec(l, settings, q, percent, now);
      var c := l.customers[q.customerId];
      var r := st.result.value;
      && ValidAmounts(q) && Accessible(l.customers, q.customerId, q.workerId)
      && r.newWalletBalance == c.walletBalance + q.points.value
      && r.newWalletBalance <= EffectiveMaxWallet(MerchantSettingsModel.FindByMerchant(settings, c.merchantId))
      && st.ledger.log == l.log + [r.transaction]
      && r.transaction == NewTransaction(c, q.workerId, Credit, q.points.value, q.cashValue.value,
                                         Commission(q.cashValue.value, percent), now, r.newWalletBalance)
      && st.ledger.customers == l.customers[q.customerId := Touch(c, r.newWalletBalance, now, true)]
  {
  }

  /** The step of an accepted top-up, spelled out: `t` is the entry and `c'` the
      customer record the handler writes, and the ledger they form is valid. */
  lemma TopupCommitted(l: Ledger, settings: seq<MerchantSettingsModel.MerchantSettings>, q: TxRequest,
                       percent: real, now: int, t: Transaction, c': Customer)
    requires 0.0 <= percent <= 100.0
    requires LedgerValid(l)
    requires ValidAmounts(q) && Accessible(l.customers, q.customerId, q.workerId)
    requires l.customers[q.customerId].walletBalance + q.points.value
             <= EffectiveMaxWallet(MerchantSettingsModel.FindByMerchant(settings, l.customers[q.customerId].merchantId))
    requires t == NewTransaction(l.customers[q.customerId], q.workerId, Credit, q.points.value, q.cashValue.value,
                                 Commission(q.cashValue.value, percent), now,
                                 l.customers[q.customerId].walletBalance + q.points.value)
    requires c' == Touch(l.customers[q.customerId], t.walletBalanceAfter, now, true)
    ensures TopupSpec(l, settings, q, percent, now)
         == Step(Ok(Receipt(t, t.walletBalanceAfter)), Ledger(l.customers[q.customerId := c'], l.log + [t]))
    ensures LedgerValid(Ledger(l.customers[q.customerId := c'], l.log + [t]))
  {
    TopupStepOf(l, settings, q, percent, now, t, c');
    CreditKeepsValid(l, l.customers[q.customerId], t, c');
  }

  /** The step `TopupSpec` takes once every check passes, apart from the
      invariants; kept apart so that its unfolding does not meet them. */
  lemma TopupStepOf(l: Ledger, settings: seq<MerchantSettingsModel.MerchantSettings>, q: TxRequest,
                    percent: real, now: int, t: Transaction, c': Customer)
    requires 0.0 <= percent <= 100.0
    requires ValidAmounts(q) && Accessible(l.customers, q.customerId, q.workerId)
    requires l.customers[q.customerId].walletBalance + q.points.value
             <= EffectiveMaxWallet(MerchantSettingsModel.FindByMerchant(settings, l.customers[q.customerId].merchantId))
    requires t == NewTransaction(l.customers[q.customerId], q.workerId, Credit, q.points.value, q.cashValue.value,
                                 Commission(q.cashValue.value, percent), now,
                                 l.customers[q.customerId].walletBalance + q.points.value)
    requires c' == Touch(l.customers[q.customerId], t.walletBalanceAfter, now, true)
    ensures TopupSpec(l, settings, q, percent, now)
         == Step(Ok(Receipt(t, t.walletBalanceAfter)), Ledger(l.customers[q.customerId := c'], l.log + [t]))
  {
  }

  /** Appending a credit of a stored customer, and storing its snapshot, keeps the
      ledger valid. */
  lemma CreditKeepsValid(l: Ledger, c: Customer, t: Transaction, c': Customer)
    requires LedgerValid(l)
    requires c.id in l.customers && l.customers[c.id] == c
    requires t.customerId == c.id && t.txType == Credit && t.points >= 0
    requires t.cashEquivalentValue >= 0.0 && t.adminCommissionValue >= 0.0
    requires t.walletBalanceAfter == c.walletBalance + t.points
    requires c' == c.(walletBalance := t.walletBalanceAfter, lastTransactionDate := c'.lastTransactionDate,
                      firstTransactionDate := c'.firstTransactionDate)
    ensures LedgerValid(Ledger(l.customers[c.id := c'], l.log + [t]))
  {
    AppendPreservesValid(l, c, t, c');
  }

  /** A top-up keeps every ledger invariant: balances non-negative, entries within
      their bounds, and each customer's audit chain ending at the stored balance. */
  lemma TopupPreservesValid(l: Ledger, settings: seq<MerchantSettingsModel.MerchantSettings>, q: TxRequest,
                            percent: real, now: int)
    requires 0.0 <= percent <= 100.0
    requires LedgerValid(l)
    ensures LedgerValid(TopupSpec(l, settings, q, percent, now).ledger)
  {
    if && ValidAmounts(q) && Accessible(l.customers, q.customerId, q.workerId)
       && l.customers[q.customerId].walletBalance + q.points.value
            <= EffectiveMaxWallet(MerchantSettingsModel.FindByMerchant(settings, l.customers[q.customerId].merchantId))
    {
      var c := l.customers[q.customerId];
      var t := NewTransaction(c, q.workerId, Credit, q.points.value, q.cashValue.value,
                              Commission(q.cashValue.value, percent), now, c.walletBalance + q.points.value);
      TopupCommitted(l, settings, q, percent, now, t, Touch(c, t.walletBalanceAfter, now, true));
    } else {
      assert TopupSpec(l, settings, q, percent, now).ledger == l;
    }
  }

  // ---------------------------------------------------------------------------
  // What a redemption decides and what it writes

  /** Each rejection of a redemption, in the order the handler checks, and that a
      rejection changes nothing. */
  lemma RedeemRejections(l: Ledger, settings: seq<MerchantSettingsModel.MerchantSettings>, q: TxRequest,
                         percent: real, now: int, today: int, tomorrow: int)
    requires 0.0 <= percent <= 100.0
    ensures var st := RedeemSpec(l, settings, q, percent, now, today, tomorrow);
      && (st.result == Err(InvalidAmount) <==> !ValidAmounts(q))
      && (st.result == Err(CustomerNotAccessible) <==>
            ValidAmounts(q) && !Accessible(l.customers, q.customerId, q.workerId))
      && (st.result == Err(InsufficientBalance) <==>
            && ValidAmounts(q) && Accessible(l.customers, q.customerId, q.workerId)
            && l.customers[q.customerId].walletBalance < q.points.value)
      && (st.result.Err? && st.result.error.DailyLimitExceeded? <==>
            && ValidAmounts(q) && Accessible(l.customers, q.customerId, q.workerId)
            && var c := l.customers[q.customerId];
            && c.walletBalance >= q.points.value
            && TodayDebitSum(l.log, c.id, today, tomorrow) + q.points.value
                 > EffectiveMaxDaily(MerchantSettingsModel.FindByMerchant(settings, c.merchantId)))
      && (st.result.Err? && st.result.error.DailyLimitExceeded? ==>
            st.result.error.maxDailyRedemption
              == EffectiveMaxDaily(MerchantSettingsModel.FindByMerchant(settings, l.customers[q.customerId].merchantId)))
      && (st.result.Err? ==> st.ledger == l)
  {
  }

  /** The balance check comes before the settings are read: when the balance does
      not cover the points, the answer is the same whatever the settings and the
      day's earlier redemptions. */
  lemma RedeemBalanceCheckedFirst(l: Ledger, s1: seq<MerchantSettingsModel.MerchantSettings>,
                                  s2: seq<MerchantSettingsModel.MerchantSettings>, q: TxRequest,
                                  percent: real, now: int, today: int, tomorrow: int, today2: int, tomorrow2: int)
    requires 0.0 <= percent <= 100.0
    requires ValidAmounts(q) && Accessible(l.customers, q.customerId, q.workerId)
    requires l.customers[q.customerId].walletBalance < q.points.value
    ensures RedeemSpec(l, s1, q, percent, now, today, tomorrow)
         == RedeemSpec(l, s2, q, percent, now, today2, tomorrow2)
         == Step(Err(InsufficientBalance), l)
  {
  }

  /** An accepted redemption debits exactly the requested points, never takes the
      balance below 0, keeps today's redeemed total within the daily cap, appends
      one debit whose snapshot is the new balance, and changes only that
      customer's balance and last-transaction date. */
  lemma RedeemAccepted(l: Ledger, settings: seq<MerchantSettingsModel.MerchantSettings>, q: TxRequest,
                       percent: real, now: int, today: int, tomorrow: int)
    requires 0.0 <= percent <= 100.0
    requires today <= now < tomorrow
    requires RedeemSpec(l, settings, q, percent, now, today, tomorrow).result.Ok?
    ensures var st := RedeemSpec(l, settings, q, percent, now, today, tomorrow);
      var c := l.customers[q.customerId];
      var r := st.result.value;
      && ValidAmounts(q) && Accessible(l.customers, q.customerId, q.workerId)
      && r.newWalletBalance == c.walletBalance - q.points.value
      && r.newWalletBalance >= 0
      && TodayDebitSum(st.ledger.log, c.id, today, tomorrow)
           == TodayDebitSum(l.log, c.id, today, tomorrow) + q.points.value
      && TodayDebitSum(st.ledger.log, c.id, today, tomorrow)
           <= EffectiveMaxDaily(MerchantSettingsModel.FindByMerchant(settings, c.merchantId))
      && st.ledger.log == l.log + [r.transaction]
      && r.transaction == NewTransaction(c, q.workerId, Debit, q.points.value, q.cashValue.value,
                                         Commission(q.cashValue.value, percent), now, r.newWalletBalance)
      && st.ledger.customers == l.customers[q.customerId := Touch(c, r.newWalletBalance, now, false)]
      && st.ledger.customers[q.customerId].firstTransactionDate == c.firstTransactionDate
  {
    var st := RedeemSpec(l, settings, q, percent, now, today, tomorrow);
    TodayDebitSumAppend(l.log, st.result.value.transaction, l.customers[q.customerId].id, today, tomorrow);
  }

  /** The step of an accepted redemption, spelled out as for a top-up, with the
      new daily total. */
  lemma RedeemCommitted(l: Ledger, settings: seq<MerchantSettingsModel.MerchantSettings>, q: TxRequest,
                        percent: real, now: int, today: int, tomorrow: int, t: Transaction, c': Customer)
    requires 0.0 <= percent <= 100.0
    requires LedgerValid(l)
    requires ValidAmounts(q) && Accessible(l.customers, q.customerId, q.workerId)
    requires l.customers[q.customerId].walletBalance >= q.points.value
    requires TodayDebitSum(l.log, l.customers[q.customerId].id, today, tomorrow) + q.points.value
             <= EffectiveMaxDaily(MerchantSettingsModel.FindByMerchant(settings, l.customers[q.customerId].merchantId))
    requires t == NewTransaction(l.customers[q.customerId], q.workerId, Debit, q.points.value, q.cashValue.value,
                                 Commission(q.cashValue.value, percent), now,
                                 l.customers[q.customerId].walletBalance - q.points.value)
    requires c' == Touch(l.customers[q.customerId], t.walletBalanceAfter, now, false)
    ensures RedeemSpec(l, settings, q, percent, now, today, tomorrow)
         == Step(Ok(Receipt(t, t.walletBalanceAfter)), Ledger(l.customers[q.customerId := c'], l.log + [t]))
    ensures LedgerValid(Ledger(l.customers[q.customerId := c'], l.log + [t]))
    ensures today <= now < tomorrow ==>
              TodayDebitSum(l.log + [t], l.customers[q.customerId].id, today, tomorrow)
                == TodayDebitSum(l.log, l.customers[q.customerId].id, today, tomorrow) + q.points.value
  {
    RedeemStepOf(l, settings, q, percent, now, today, tomorrow, t, c');
    DebitKeepsValid(l, l.customers[q.customerId], t, c');
    TodayDebitSumAppend(l.log, t, l.customers[q.customerId].id, today, tomorrow);
  }

  /** Appending a covered debit of a stored customer, and storing its snapshot,
      keeps the ledger valid. */
  lemma DebitKeepsValid(l: Ledger, c: Customer, t: Transaction, c': Customer)
    requires LedgerValid(l)
    requires c.id in l.customers && l.customers[c.id] == c
    requires t.customerId == c.id && t.txType == Debit
    requires 0 <= t.points <= c.walletBalance
    requires t.cashEquivalentValue >= 0.0 && t.adminCommissionValue >= 0.0
    requires t.walletBalanceAfter == c.walletBalance - t.points
    requires c' == c.(walletBalance := t.walletBalanceAfter, lastTransactionDate := c'.lastTransactionDate,
                      firstTransactionDate := c'.firstTransactionDate)
    ensures LedgerValid(Ledger(l.customers[c.id := c'], l.log + [t]))
  {
    AppendPreservesValid(l, c, t, c');
  }

  /** The step `RedeemSpec` takes once every check passes, apart from the
      invariants; kept apart so that its unfolding does not meet them. */
  lemma RedeemStepOf(l: Ledger, settings: seq<MerchantSettingsModel.MerchantSettings>, q: TxRequest,
                     percent: real, now: int, today: int, tomorrow: int, t: Transaction, c': Customer)
    requires 0.0 <= percent <= 100.0
    requires ValidAmounts(q) && Accessible(l.customers, q.customerId, q.workerId)
    requires l.customers[q.customerId].walletBalance >= q.points.value
    requires TodayDebitSum(l.log, l.customers[q.customerId].id, today, tomorrow) + q.points.value
             <= EffectiveMaxDaily(MerchantSettingsModel.FindByMerchant(settings, l.customers[q.customerId].merchantId))
    requires t == NewTransaction(l.customers[q.customerId], q.workerId, Debit, q.points.value, q.cashValue.value,
                                 Commission(q.cashValue.value, percent), now,
                                 l.customers[q.customerId].walletBalance - q.points.value)
    requires c' == Touch(l.customers[q.customerId], t.walletBalanceAfter, now, false)
    ensures RedeemSpec(l, settings, q, percent, now, today, tomorrow)
         == Step(Ok(Receipt(t, t.walletBalanceAfter)), Ledger(l.customers[q.customerId := c'], l.log + [t]))
  {
  }

  /** A redemption keeps every ledger invariant. */
  lemma RedeemPreservesValid(l: Ledger, settings: seq<MerchantSettingsModel.MerchantSettings>, q: TxRequest,
                             percent: real, now: int, today: int, tomorrow: int)
    requires 0.0 <= percent <= 100.0
    requires LedgerValid(l)
    ensures LedgerValid(RedeemSpec(l, settings, q, percent, now, today, tomorrow).ledger)
  {
    if && ValidAmounts(q) && Accessible(l.customers, q.customerId, q.workerId)
       && l.customers[q.customerId].walletBalance >= q.points.value
       && TodayDebitSum(l.log, l.customers[q.customerId].id, today, tomorrow) + q.points.value
            <= EffectiveMaxDaily(MerchantSettingsModel.FindByMerchant(settings, l.customers[q.customerId].merchantId))
    {
      var c := l.customers[q.customerId];
      var t := NewTransaction(c, q.workerId, Debit, q.points.value, q.cashValue.value,
                              Commission(q.cashValue.value, percent), now, c.walletBalance - q.points.value);
      RedeemCommitted(l, settings, q, percent, now, today, tomorrow, t, Touch(c, t.walletBalanceAfter, now, false));
    } else {
      assert RedeemSpec(l, settings, q, percent, now, today, tomorrow).ledger == l;
    }
  }

  /** The commission percent is bookkeeping only: it changes neither the decision,
      nor the new balance, nor any customer record. */
  lemma CommissionDoesNotAffectBalance(l: Ledger, settings: seq<MerchantSettingsModel.MerchantSettings>,
                                       q: TxRequest, p1: real, p2: real, now: int, today: int, tomorrow: int)
    requires 0.0 <= p1 <= 100.0 && 0.0 <= p2 <= 100.0
    ensures var a := TopupSpec(l, settings, q, p1, now);
      var b := TopupSpec(l, settings, q, p2, now);
      && a.result.Ok? == b.result.Ok? && a.ledger.customers == b.ledger.customers
      && (a.result.Ok? ==> a.result.value.newWalletBalance == b.result.value.newWalletBalance)
    ensures var a := RedeemSpec(l, settings, q, p1, now, today, tomorrow);
      var b := RedeemSpec(l, settings, q, p2, now, today, tomorrow);
      && a.result.Ok? == b.result.Ok? && a.ledger.customers == b.ledger.customers
      && (a.result.Ok? ==> a.result.value.newWalletBalance == b.result.value.newWalletBalance)
  {
  }

  /** The common step of both writes: appending `t` for `c` and storing `c'`, whose
      balance is `t`'s snapshot, keeps the ledger valid when `t` continues `c`'s chain. */
  lemma AppendPreservesValid(l: Ledger, c: Customer, t: Transaction, c': Customer)
    requires LedgerValid(l)
    requires c.id in l.customers && l.customers[c.id] == c
    requires t.customerId == c.id && TransactionModel.WellFormed(t)
    requires t.walletBalanceAfter == Apply(c.walletBalance, t)
    requires c'.id == c.id && c'.phoneNumber == c.phoneNumber && c'.merchantId == c.merchantId
    requires c'.walletBalance == t.walletBalanceAfter
    ensures LedgerValid(Ledger(l.customers[c.id := c'], l.log + [t]))
  {
    AppendKeepsCustomersValid(l.customers, c, c');
    AppendKeepsLogValid(l.log, t);
    AppendKeepsAudit(l, c, t, c');
  }

  lemma AppendKeepsLogValid(log: seq<Transaction>, t: Transaction)
    requires LogValid(log) && TransactionModel.WellFormed(t)
    ensures LogValid(log + [t])
  {
    forall i | 0 <= i < |log + [t]| ensures TransactionModel.WellFormed((log + [t])[i]) {
      if i < |log| { assert (log + [t])[i] == log[i]; }
    }
  }

  lemma AppendKeepsAudit(l: Ledger, c: Customer, t: Transaction, c': Customer)
    requires AuditHolds(l)
    requires c.id in l.customers && l.customers[c.id] == c
    requires t.customerId == c.id
    requires t.walletBalanceAfter == Apply(c.walletBalance, t)
    requires c'.walletBalance == t.walletBalanceAfter
    ensures AuditHolds(Ledger(l.customers[c.id := c'], l.log + [t]))
  {
    var l' := Ledger(l.customers[c.id := c'], l.log + [t]);
    forall k | k in l'.customers
      ensures Chained(CustomerLog(l'.log, k)) && LastBalance(CustomerLog(l'.log, k)) == l'.customers[k].walletBalance
    {
      SelectAppend(l.log, t, ByCustomer, k);
      if k == c.id {
        ChainedAppend(CustomerLog(l.log, k), t);
      } else {
        assert CustomerLog(l'.log, k) == CustomerLog(l.log, k);
      }
    }
  }

  lemma AppendKeepsCustomersValid(customers: map<Id, Customer>, c: Customer, c': Customer)
    requires CustomersValid(customers)
    requires c.id in customers && customers[c.id] == c
    requires c'.id == c.id && c'.phoneNumber == c.phoneNumber && c'.merchantId == c.merchantId
    requires c'.walletBalance >= 0
    ensures CustomersValid(customers[c.id := c'])
  {
    var m := customers[c.id := c'];
    forall a, b | a in m && b in m && a != b
      ensures m[a].phoneNumber != m[b].phoneNumber || m[a].merchantId != m[b].merchantId
    {
      assert customers[a].phoneNumber == m[a].phoneNumber && customers[a].merchantId == m[a].merchantId;
      assert customers[b].phoneNumber == m[b].phoneNumber && customers[b].merchantId == m[b].merchantId;
    }
  }

  /** A sequence of accepted or rejected requests, applied one after the other. */
  datatype Op =
    | TopupOp(q: TxRequest, percent: real, now: int)
    | RedeemOp(q: TxRequest, percent: real, now: int, today: int, tomorrow: int)

  predicate OpAdmitted(op: Op)
  {
    0.0 <= op.percent <= 100.0
  }

  function ApplyOp(l: Ledger, settings: seq<MerchantSettingsModel.MerchantSettings>, op: Op): Ledger
    requires OpAdmitted(op)
  {
    match op
    case TopupOp(q, p, now) => TopupSpec(l, settings, q, p, now).ledger
    case RedeemOp(q, p, now, today, tomorrow) => RedeemSpec(l, settings, q, p, now, today, tomorrow).ledger
  }

  function Run(l: Ledger, settings: seq<MerchantSettingsModel.MerchantSettings>, ops: seq<Op>): Ledger
    requires forall i :: 0 <= i < |ops| ==> OpAdmitted(ops[i])
    decreases |ops|
  {
    if ops == [] then l
    else Run(ApplyOp(l, settings, ops[0]), settings, ops[1..])
  }

  /** Whatever sequence of top-ups and redemptions is run, every balance stays
      non-negative and the audit chain keeps holding for every customer. */
  lemma {:induction false} RunPreservesValid(l: Ledger, settings: seq<MerchantSettingsModel.MerchantSettings>, ops: seq<Op>)
    requires forall i :: 0 <= i < |ops| ==> OpAdmitted(ops[i])
    requires LedgerValid(l)
    ensures LedgerValid(Run(l, settings, ops))
    ensures forall k :: k in Run(l, settings, ops).customers ==> Run(l, settings, ops).customers[k].walletBalance >= 0
    decreases |ops|
  {
    if ops != [] {
      match ops[0] {
        case TopupOp(q, p, now) => TopupPreservesValid(l, settings, q, p, now);
        case RedeemOp(q, p, now, today, tomorrow) => RedeemPreservesValid(l, settings, q, p, now, today, tomorrow);
      }
      assert forall i :: 0 <= i < |ops[1..]| ==> OpAdmitted(ops[1..][i]) by {
        forall i | 0 <= i < |ops[1..]| ensures OpAdmitted(ops[1..][i]) { assert ops[1..][i] == ops[i + 1]; }
      }
      RunPreservesValid(ApplyOp(l, settings, ops[0]), settings, ops[1..]);
    }
  }

  // ---------------------------------------------------------------------------
  // The handlers on the store

  /** The two writes of an accepted request, in the handlers' order:
      `Transaction.create` appends to the log, then `Customer.findByIdAndUpdate`
      overwrites the customer record. */
  method Commit(db: Db, transaction: Transaction, updated: Customer)
    modifies db
    ensures db.transactions == old(db.transactions) + [transaction]
    ensures db.customers == old(db.customers)[updated.id := updated]
    ensures db.settings == old(db.settings) && db.workers == old(db.workers) && db.branches == old(db.branches)
  {
    db.transactions := db.transactions + [transaction];
    db.customers := db.customers[updated.id := updated];
  }

  /** `topupCustomer`: the checks, then the two writes in the handler's order
      (append the transaction, then overwrite the customer's balance and dates). */
  method Topup(db: Db, q: TxRequest, percent: real, now: int) returns (r: Result<Receipt, EngineError>)
    requires db.Valid()
    requires 0.0 <= percent <= 100.0
    modifies db
    ensures db.Valid()
    ensures Step(r, db.CurrentLedger()) == TopupSpec(old(db.CurrentLedger()), old(db.settings), q, percent, now)
    ensures db.settings == old(db.settings) && db.workers == old(db.workers) && db.branches == old(db.branches)
    ensures r.Err? ==> db.customers == old(db.customers) && db.transactions == old(db.transactions)
    ensures r.Ok? ==>
      && db.transactions == old(db.transactions) + [r.value.transaction]
      && r.value.transaction.walletBalanceAfter == r.value.newWalletBalance
      && db.customers[q.customerId].walletBalance == r.value.newWalletBalance
  {
    if !(q.points.Some? && q.points.value > 0 && q.cashValue.Some? && q.cashValue.value > 0.0) {
      return Err(InvalidAmount);
    }
    if !(q.customerId in db.customers && db.customers[q.customerId].assignedWorkerId == Some(q.workerId)
         && db.customers[q.customerId].status == Active) {
      return Err(CustomerNotAccessible);
    }
    var customer := db.customers[q.customerId];
    var points := q.points.value;
    var settings := MerchantSettingsModel.FindByMerchant(db.settings, customer.merchantId);
    var maxWalletBalance := EffectiveMaxWallet(settings);
    if customer.walletBalance + points > maxWalletBalance {
      return Err(WalletLimitExceeded(maxWalletBalance));
    }
    var commission := Commission(q.cashValue.value, percent);
    var newWalletBalance := customer.walletBalance + points;
    var transaction := NewTransaction(customer, q.workerId, Credit, points, q.cashValue.value,
                                      commission, now, newWalletBalance);
    var first := if customer.firstTransactionDate.Some? then customer.firstTransactionDate else Some(now);
    var updated := customer.(walletBalance := newWalletBalance, lastTransactionDate := Some(now),
                             firstTransactionDate := first);
    assert updated == Touch(customer, newWalletBalance, now, true);
    assert updated.id == q.customerId;
    ghost var before := db.CurrentLedger();
    TopupCommitted(before, db.settings, q, percent, now, transaction, updated);
    Commit(db, transaction, updated);
    assert db.CurrentLedger() == Ledger(before.customers[q.customerId := updated], before.log + [transaction]);
    r := Ok(Receipt(transaction, newWalletBalance));
  }

  /** `redeemFromCustomer`: the checks (balance before settings and daily total),
      then the two writes; the day window is `[today, tomorrow)` around `now`. */
  method Redeem(db: Db, q: TxRequest, percent: real, now: int, today: int, tomorrow: int)
    returns (r: Result<Receipt, EngineError>)
    requires db.Valid()
    requires 0.0 <= percent <= 100.0
    requires today <= now < tomorrow
    modifies db
    ensures db.Valid()
    ensures Step(r, db.CurrentLedger())
         == RedeemSpec(old(db.CurrentLedger()), old(db.settings), q, percent, now, today, tomorrow)
    ensures db.settings == old(db.settings) && db.workers == old(db.workers) && db.branches == old(db.branches)
    ensures r.Err? ==> db.customers == old(db.customers) && db.transactions == old(db.transactions)
    ensures r.Ok? ==>
      && db.transactions == old(db.transactions) + [r.value.transaction]
      && r.value.transaction.walletBalanceAfter == r.value.newWalletBalance
      && db.customers[q.customerId].walletBalance == r.value.newWalletBalance >= 0
      && TodayDebitSum(db.transactions, q.customerId, today, tomorrow)
           <= EffectiveMaxDaily(MerchantSettingsModel.FindByMerchant(db.settings, db.customers[q.customerId].merchantId))
  {
    if !(q.points.Some? && q.points.value > 0 && q.cashValue.Some? && q.cashValue.value > 0.0) {
      return Err(InvalidAmount);
    }
    if !(q.customerId in db.customers && db.customers[q.customerId].assignedWorkerId == Some(q.workerId)
         && db.customers[q.customerId].status == Active) {
      return Err(CustomerNotAccessible);
    }
    var customer := db.customers[q.customerId];
    var points := q.points.value;
    if customer.walletBalance < points {
      return Err(InsufficientBalance);
    }
    var settings := MerchantSettingsModel.FindByMerchant(db.settings, customer.merchantId);
    var maxDailyRedemption := EffectiveMaxDaily(settings);
    var totalRedeemedToday := TodayDebitSum(db.transactions, customer.id, today, tomorrow);
    if totalRedeemedToday + points > maxDailyRedemption {
      return Err(DailyLimitExceeded(maxDailyRedemption));
    }
    var commission := Commission(q.cashValue.value, percent);
    var newWalletBalance := customer.walletBalance - points;
    var transaction := NewTransaction(customer, q.workerId, Debit, points, q.cashValue.value,
                                      commission, now, newWalletBalance);
    var updated := customer.(walletBalance := newWalletBalance, lastTransactionDate := Some(now));
    assert updated == Touch(customer, newWalletBalance, now, false);
    assert updated.id == customer.id == q.customerId;
    ghost var before := db.CurrentLedger();
    RedeemCommitted(before, db.settings, q, percent, now, today, tomorrow, transaction, updated);
    Commit(db, transaction, updated);
    assert db.CurrentLedger() == Ledger(before.customers[q.customerId := updated], before.log + [transaction]);
    r := Ok(Receipt(transaction, newWalletBalance));
  }

  /** `req.query.type` filters on the type name when it is a non-empty string; a
      name that is neither `credit` nor `debit` matches nothing. */
  predicate MatchesQuery(t: Transaction, customerId: Id, typeFilter: Option<string>)
  {
    t.customerId == customerId && (typeFilter.None? || typeFilter.value == "" || TypeName(t.txType) == typeFilter.value)
  }

  /** `find({ oCustomerId, sType? })` over the log, in log order. */
  function Matching(log: seq<Transaction>, customerId: Id, typeFilter: Option<string>): (r: seq<Transaction>)
    ensures forall t :: t in r <==> t in log && MatchesQuery(t, customerId, typeFilter)
    ensures |r| <= |log|
  {
    if log == [] then []
    else
      var last := log[|log| - 1];
      Matching(log[..|log| - 1], customerId, typeFilter)
      + (if MatchesQuery(last, customerId, typeFilter) then [last] else [])
  }

  /** Appending to the log appends to the listing exactly when the entry matches,
      so `countDocuments` counts every matching entry, repeats included. */
  lemma MatchingAppend(log: seq<Transaction>, t: Transaction, customerId: Id, typeFilter: Option<string>)
    ensures Matching(log + [t], customerId, typeFilter)
         == Matching(log, customerId, typeFilter) + (if MatchesQuery(t, customerId, typeFilter) then [t] else [])
  {
    assert (log + [t])[..|log|] == log;
  }

  /** Without a type filter the listing is the customer finder's selection, entry
      for entry. */
  lemma {:induction false} MatchingAllTypes(log: seq<Transaction>, customerId: Id)
    ensures Matching(log, customerId, None) == Select(log, ByCustomer, customerId)
    decreases |log|
  {
    if log != [] {
      MatchingAllTypes(log[..|log| - 1], customerId);
    }
  }

  /** One page of a customer's history and the paging figures of the response. */
  datatype TxPage = TxPage(transactions: seq<Transaction>, page: int, limit: int, total: nat, pages: nat)

  /** `getCustomerTransactions`: only the customer's own worker may list it (its
      status is not checked here); the page holds matching entries, newest first. */
  method CustomerTransactions(db: Db, customerId: Id, workerId: Id, typeFilter: Option<string>,
                              page: Option<int>, limit: Option<int>) returns (r: Result<TxPage, EngineError>)
    requires QueryAdmitted(page, limit)
    ensures r.Err? <==> !(customerId in db.customers && db.customers[customerId].assignedWorkerId == Some(workerId))
    ensures r.Err? ==> r.error == CustomerNotAccessible
    ensures r.Ok? ==>
      var m := Matching(db.transactions, customerId, typeFilter);
      var p := ReadPaging(page, limit);
      && r.value.page == p.page && r.value.limit == p.limit
      && r.value.total == |m| && r.value.pages == PageCount(|m|, p.limit)
      && r.value.transactions == Window(SortNewestFirst(m), p.skip, p.limit)
      && NewestFirst(r.value.transactions)
      && (forall t :: t in r.value.transactions ==> t in db.transactions && MatchesQuery(t, customerId, typeFilter))
  {
    var p := ReadPaging(page, limit);
    if !(customerId in db.customers && db.customers[customerId].assignedWorkerId == Some(workerId)) {
      return Err(CustomerNotAccessible);
    }
    var matching := Matching(db.transactions, customerId, typeFilter);
    var sorted := SortNewestFirst(matching);
    var items := Window(sorted, p.skip, p.limit);
    forall t | t in items ensures t in db.transactions && MatchesQuery(t, customerId, typeFilter) {
      var j :| 0 <= j < |items| && items[j] == t;
      assert t in multiset(sorted);
    }
    r := Ok(TxPage(items, p.page, p.limit, |matching|, PageCount(|matching|, p.limit)));
  }
}
