/** The record of table `daily_sales_sku` (server/model/daily_sale_sku.go):
    one raw per-day sales figure of one SKU, as reported, without aggregation. */
module SaleRecords {

  /** A stored row.  `id` is the surrogate primary key; (salesDate, sku) is the
      composite unique index `uk_date_sku`.  The dates are unvalidated strings
      and compare as exact strings; the timestamps are abstract clock values. */
  datatype DailySaleSku = DailySaleSku(
    id: nat,
    salesDate: string,
    sku: string,
    salesNumber: int,
    createdAt: int,
    updatedAt: int)

  /** The natural key of the unique index `uk_date_sku`. */
  type SaleKey = (string, string)

  function KeyOf(r: DailySaleSku): SaleKey {
    (r.salesDate, r.sku)
  }

  /** The table the record is stored in. */
  function TableName(): (name: string)
    ensures name == "daily_sales_sku"
  {
    "daily_sales_sku"
  }

  /** The uniqueness the index enforces, on a table indexed by its natural key:
      every row is filed under its own (salesDate, sku). */
  ghost predicate IndexedByKey(records: map<SaleKey, DailySaleSku>) {
    forall k :: k in records ==> KeyOf(records[k]) == k
  }

  /** In a table indexed by `uk_date_sku`, two stored rows with the same date and
      SKU are the same row; rows that differ in the date alone or in the SKU alone
      are different keys. */
  lemma AtMostOnePerKey(records: map<SaleKey, DailySaleSku>, k1: SaleKey, k2: SaleKey)
    requires IndexedByKey(records)
    requires k1 in records && k2 in records
    ensures KeyOf(records[k1]) == KeyOf(records[k2]) <==> k1 == k2
    ensures records[k1].salesDate != records[k2].salesDate ==> k1 != k2
    ensures records[k1].sku != records[k2].sku ==> k1 != k2
  {
  }
}
