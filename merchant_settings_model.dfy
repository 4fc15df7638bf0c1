/** The per-merchant points settings record and its collection
    (`src/models/merchantSettingsModel.js`). */
module MerchantSettingsModel {
  import opened Common

  const DefaultPointToCurrencyRate: real := 1.0
  const DefaultMaxWalletBalance: int := 10000
  const DefaultMaxDailyRedemption: int := 1000
  const DefaultMaxCustomersLimit: int := 1000

  const MinPointToCurrencyRate: real := 0.01

  /** One settings record. The record has exactly these four limits besides the
      owning merchant: there is no commission-percent field. The two creation and
      update timestamps are not modelled. */
  datatype MerchantSettings = MerchantSettings(
    merchantId: Id,
    pointToCurrencyRate: real,
    maxWalletBalance: int,
    maxDailyRedemption: int,
    maxCustomersLimit: int)

  /** The schema's `min` validators. */
  predicate WithinBounds(s: MerchantSettings)
  {
    && s.pointToCurrencyRate >= MinPointToCurrencyRate
    && s.maxWalletBalance >= 0
    && s.maxDailyRedemption >= 0
    && s.maxCustomersLimit >= 1
  }

  /** The record `create({ oMerchantId })` produces: every other field takes its
      schema default. */
  function Default(merchantId: Id): (s: MerchantSettings)
    ensures s.merchantId == merchantId
    ensures s.pointToCurrencyRate == 1.0 && s.maxWalletBalance == 10000
    ensures s.maxDailyRedemption == 1000 && s.maxCustomersLimit == 1000
    ensures WithinBounds(s)
  {
    MerchantSettings(merchantId, DefaultPointToCurrencyRate, DefaultMaxWalletBalance,
                     DefaultMaxDailyRedemption, DefaultMaxCustomersLimit)
  }

  /** The unique index on `oMerchantId`: no two records share a merchant. */
  ghost predicate UniquePerMerchant(table: seq<MerchantSettings>)
  {
    forall i, j :: 0 <= i < j < |table| ==> table[i].merchantId != table[j].merchantId
  }

  /** Every record in the collection passed the schema's validators. */
  ghost predicate AllWithinBounds(table: seq<MerchantSettings>)
  {
    forall i :: 0 <= i < |table| ==> WithinBounds(table[i])
  }

  ghost predicate ValidTable(table: seq<MerchantSettings>)
  {
    UniquePerMerchant(table) && AllWithinBounds(table)
  }

  /** Number of records that belong to `merchantId`. */
  function CountFor(table: seq<MerchantSettings>, merchantId: Id): (n: nat)
    ensures n <= |table|
    ensures n == 0 <==> forall i :: 0 <= i < |table| ==> table[i].merchantId != merchantId
  {
    if table == [] then 0
    else (if table[0].merchantId == merchantId then 1 else 0) + CountFor(table[1..], merchantId)
  }

  /** `findByMerchant`: `findOne({ oMerchantId })`, the first matching record. */
  function FindByMerchant(table: seq<MerchantSettings>, merchantId: Id): (r: Option<MerchantSettings>)
    ensures r.None? <==> forall i :: 0 <= i < |table| ==> table[i].merchantId != merchantId
    ensures r.Some? ==> r.value in table && r.value.merchantId == merchantId
  {
    if table == [] then None
    else if table[0].merchantId == merchantId then Some(table[0])
    else FindByMerchant(table[1..], merchantId)
  }

  /** Under the unique index, a merchant has at most one record, and when it has
      one, `findByMerchant` returns exactly that record. */
  lemma {:induction false} UniqueLookup(table: seq<MerchantSettings>, merchantId: Id, k: nat)
    requires UniquePerMerchant(table)
    requires k < |table| && table[k].merchantId == merchantId
    ensures FindByMerchant(table, merchantId) == Some(table[k])
    ensures CountFor(table, merchantId) == 1
  {
    if k == 0 {
      assert forall i :: 0 <= i < |table[1..]| ==> table[1..][i].merchantId != merchantId by {
        forall i | 0 <= i < |table[1..]| ensures table[1..][i].merchantId != merchantId {
          assert table[1..][i] == table[i + 1];
        }
      }
    } else {
      assert table[1..][k - 1] == table[k];
      UniqueLookup(table[1..], merchantId, k - 1);
    }
  }

  /** Under the unique index a merchant never has more than one record. */
  lemma AtMostOne(table: seq<MerchantSettings>, merchantId: Id)
    requires UniquePerMerchant(table)
    ensures CountFor(table, merchantId) <= 1
  {
    if CountFor(table, merchantId) != 0 {
      var k :| 0 <= k < |table| && table[k].merchantId == merchantId;
      UniqueLookup(table, merchantId, k);
    }
  }
}
