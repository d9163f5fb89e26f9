/** The daily-sales ingestion endpoint (server/handler/daily_sale_handler.go):
    a JSON batch of per-day SKU sales figures is merged into `daily_sales_sku`
    with insert-or-update on (sales_date, sku), overwriting only `sales_number`. */
module DailySaleHandler {
  import opened Options
  import opened SaleRecords

  /** One element of the JSON body: the three fields the handler binds. */
  datatype SaleInput = SaleInput(salesDate: string, sku: string, salesNumber: int)

  function InputKey(s: SaleInput): SaleKey {
    (s.salesDate, s.sku)
  }

  /** The stored state of the table: rows by natural key, and the next value of
      the auto-increment primary key. */
  datatype SalesTable = SalesTable(records: map<SaleKey, DailySaleSku>, nextId: nat)

  /** Rows sit under their own key, ids are below `nextId`, and no two rows share an id. */
  ghost predicate WellFormed(t: SalesTable) {
    && 1 <= t.nextId
    && IndexedByKey(t.records)
    && (forall k :: k in t.records ==> 1 <= t.records[k].id < t.nextId)
    && (forall k1, k2 :: k1 in t.records && k2 in t.records && t.records[k1].id == t.records[k2].id ==> k1 == k2)
  }

  /** One record of `INSERT ... ON DUPLICATE KEY UPDATE sales_number`: an existing
      (date, sku) row gets the incoming sales number and keeps everything else;
      a new one is inserted with both timestamps set to `now`. */
  function UpsertSale(t: SalesTable, s: SaleInput, now: int): (r: SalesTable)
    ensures r.records.Keys == t.records.Keys + {InputKey(s)}
    ensures r.records[InputKey(s)].salesNumber == s.salesNumber
    ensures forall k :: k in t.records && k != InputKey(s) ==> r.records[k] == t.records[k]
    ensures r.nextId == if InputKey(s) in t.records then t.nextId else t.nextId + 1
  {
    var k := InputKey(s);
    if k in t.records then
      t.(records := t.records[k := t.records[k].(salesNumber := s.salesNumber)])
    else
      SalesTable(t.records[k := DailySaleSku(t.nextId, s.salesDate, s.sku, s.salesNumber, now, now)], t.nextId + 1)
  }

  /** The whole batch, applied record by record in submission order. */
  function ApplySales(t: SalesTable, batch: seq<SaleInput>, now: int): (r: SalesTable)
    ensures t.records.Keys <= r.records.Keys
    ensures t.nextId <= r.nextId <= t.nextId + |batch|
  {
    if batch == [] then t
    else UpsertSale(ApplySales(t, batch[..|batch| - 1], now), batch[|batch| - 1], now)
  }

  /** The (date, sku) keys a batch mentions. */
  function BatchKeys(batch: seq<SaleInput>): set<SaleKey> {
    if batch == [] then {} else BatchKeys(batch[..|batch| - 1]) + {InputKey(batch[|batch| - 1])}
  }

  /** The sales number of the last record of the batch with key `k`. */
  function LatestNumber(batch: seq<SaleInput>, k: SaleKey): int
    requires k in BatchKeys(batch)
  {
    var last := batch[|batch| - 1];
    if InputKey(last) == k then last.salesNumber else LatestNumber(batch[..|batch| - 1], k)
  }

  lemma {:induction false} BatchKeysMembership(batch: seq<SaleInput>, k: SaleKey)
    ensures k in BatchKeys(batch) <==> exists i :: 0 <= i < |batch| && InputKey(batch[i]) == k
  {
    if batch != [] {
      var init := batch[..|batch| - 1];
      BatchKeysMembership(init, k);
      if k in BatchKeys(init) {
        var i :| 0 <= i < |init| && InputKey(init[i]) == k;
        assert InputKey(batch[i]) == k;
      }
      if exists i :: 0 <= i < |batch| && InputKey(batch[i]) == k {
        var i :| 0 <= i < |batch| && InputKey(batch[i]) == k;
        if i < |init| { assert InputKey(init[i]) == k; }
      }
    }
  }

  /** LatestNumber is the sales number at the last position carrying the key. */
  lemma {:induction false} LatestNumberIsLastOccurrence(batch: seq<SaleInput>, k: SaleKey)
    requires k in BatchKeys(batch)
    ensures exists j :: 0 <= j < |batch| && InputKey(batch[j]) == k && batch[j].salesNumber == LatestNumber(batch, k)
                        && forall i :: j < i < |batch| ==> InputKey(batch[i]) != k
  {
    var n := |batch| - 1;
    if InputKey(batch[n]) != k {
      var init := batch[..n];
      LatestNumberIsLastOccurrence(init, k);
      var j :| 0 <= j < |init| && InputKey(init[j]) == k && init[j].salesNumber == LatestNumber(init, k)
               && forall i :: j < i < |init| ==> InputKey(init[i]) != k;
      assert InputKey(batch[j]) == k && batch[j].salesNumber == LatestNumber(batch, k);
      forall i | j < i < |batch| ensures InputKey(batch[i]) != k {
        if i < n { assert batch[i] == init[i]; }
      }
    }
  }

  lemma UpsertSaleWellFormed(t: SalesTable, s: SaleInput, now: int)
    requires WellFormed(t)
    ensures WellFormed(UpsertSale(t, s, now))
  {
  }

  /** The table invariant survives any batch. */
  lemma {:induction false} ApplySalesWellFormed(t: SalesTable, batch: seq<SaleInput>, now: int)
    requires WellFormed(t)
    ensures WellFormed(ApplySales(t, batch, now))
  {
    if batch != [] {
      ApplySalesWellFormed(t, batch[..|batch| - 1], now);
      UpsertSaleWellFormed(ApplySales(t, batch[..|batch| - 1], now), batch[|batch| - 1], now);
    }
  }

  /** After a batch, the stored keys are the old ones plus the batch's. */
  lemma {:induction false} ApplySalesKeys(t: SalesTable, batch: seq<SaleInput>, now: int)
    ensures ApplySales(t, batch, now).records.Keys == t.records.Keys + BatchKeys(batch)
  {
    if batch != [] {
      ApplySalesKeys(t, batch[..|batch| - 1], now);
    }
  }

  /** The auto-increment counter advances once per key the table did not hold. */
  lemma {:induction false} ApplySalesNextId(t: SalesTable, batch: seq<SaleInput>, now: int)
    ensures ApplySales(t, batch, now).nextId == t.nextId + |BatchKeys(batch) - t.records.Keys|
  {
    if batch != [] {
      var init := batch[..|batch| - 1];
      var s := batch[|batch| - 1];
      var mid := ApplySales(t, init, now);
      ApplySalesNextId(t, init, now);
      ApplySalesKeys(t, init, now);
      NewKeysStep(BatchKeys(init), t.records.Keys, InputKey(s));
    }
  }

  /** Adding key k to the batch keys adds one new key exactly when k is neither
      stored nor already in the batch. */
  lemma NewKeysStep(keys: set<SaleKey>, stored: set<SaleKey>, k: SaleKey)
    ensures |(keys + {k}) - stored| == |keys - stored| + if k in stored + keys then 0 else 1
  {
    if k in stored + keys {
      assert (keys + {k}) - stored == keys - stored;
    } else {
      assert (keys + {k}) - stored == (keys - stored) + {k};
    }
  }

  /** Rows whose key the batch does not mention are left exactly as they were. */
  lemma {:induction false} ApplySalesOutsideBatch(t: SalesTable, batch: seq<SaleInput>, now: int, k: SaleKey)
    requires k in t.records && k !in BatchKeys(batch)
    ensures k in ApplySales(t, batch, now).records
    ensures ApplySales(t, batch, now).records[k] == t.records[k]
  {
    if batch != [] {
      ApplySalesOutsideBatch(t, batch[..|batch| - 1], now, k);
    }
  }

  /** A row that was stored before and is mentioned by the batch keeps its id, its
      creation and update timestamps, its date and SKU; only its sales number
      changes, to that of the last record in the batch with its key. */
  lemma {:induction false} ApplySalesUpdatesOnlyNumber(t: SalesTable, batch: seq<SaleInput>, now: int, k: SaleKey)
    requires k in t.records && k in BatchKeys(batch)
    ensures k in ApplySales(t, batch, now).records
    ensures ApplySales(t, batch, now).records[k] == t.records[k].(salesNumber := LatestNumber(batch, k))
  {
    var init := batch[..|batch| - 1];
    if k in BatchKeys(init) {
      ApplySalesUpdatesOnlyNumber(t, init, now, k);
    } else {
      ApplySalesOutsideBatch(t, init, now, k);
    }
  }

  /** A key the table did not hold is inserted once: it gets a fresh id, both
      timestamps are the time of the request, and its sales number is that of the
      last record in the batch with that key. */
  lemma {:induction false} ApplySalesInserts(t: SalesTable, batch: seq<SaleInput>, now: int, k: SaleKey)
    requires k !in t.records && k in BatchKeys(batch)
    ensures k in ApplySales(t, batch, now).records
    ensures var r := ApplySales(t, batch, now).records[k];
      && KeyOf(r) == k && r.salesNumber == LatestNumber(batch, k)
      && r.createdAt == now && r.updatedAt == now && t.nextId <= r.id
  {
    var init := batch[..|batch| - 1];
    var s := batch[|batch| - 1];
    var mid := ApplySales(t, init, now);
    assert ApplySales(t, batch, now) == UpsertSale(mid, s, now);
    if k in BatchKeys(init) {
      ApplySalesInserts(t, init, now, k);
    } else {
      ApplySalesKeys(t, init, now);
      ApplySalesNextId(t, init, now);
      assert k !in mid.records && InputKey(s) == k;
      assert UpsertSale(mid, s, now).records[k] == DailySaleSku(mid.nextId, s.salesDate, s.sku, s.salesNumber, now, now);
    }
  }

  /** Sending the same batch again leaves the table as the first delivery left it,
      whatever the clock says the second time. */
  lemma ApplySalesIdempotent(t: SalesTable, batch: seq<SaleInput>, now: int, later: int)
    ensures ApplySales(ApplySales(t, batch, now), batch, later) == ApplySales(t, batch, now)
  {
    var once := ApplySales(t, batch, now);
    var twice := ApplySales(once, batch, later);
    ApplySalesKeys(t, batch, now);
    ApplySalesKeys(once, batch, later);
    ApplySalesNextId(once, batch, later);
    assert BatchKeys(batch) - once.records.Keys == {};
    forall k | k in once.records ensures twice.records[k] == once.records[k] {
      if k in BatchKeys(batch) {
        ApplySalesUpdatesOnlyNumber(once, batch, later, k);
        if k in t.records {
          ApplySalesUpdatesOnlyNumber(t, batch, now, k);
        } else {
          ApplySalesInserts(t, batch, now, k);
        }
      } else {
        ApplySalesOutsideBatch(once, batch, later, k);
      }
    }
  }

  /** Two records of one batch that differ in the date alone, or in the SKU alone,
      end up as two stored rows, each with its own sales number. */
  lemma DistinctKeysCoexist(t: SalesTable, a: SaleInput, b: SaleInput, now: int)
    requires InputKey(a) != InputKey(b)
    ensures var r := ApplySales(t, [a, b], now).records;
      && InputKey(a) in r && InputKey(b) in r
      && r[InputKey(a)].salesNumber == a.salesNumber && r[InputKey(b)].salesNumber == b.salesNumber
  {
  }

  /** What the body of the request binds to. */
  datatype BindResult = BindFailed(reason: string) | Bound(sales: seq<SaleInput>)

  /** The reply of the endpoint. */
  datatype SalesReply =
    | InvalidRequest(reason: string)
    | EmptyBatch
    | SaveFailed(reason: string)
    | Saved(recordsProcessed: nat)
  {
    function Success(): bool {
      Saved?
    }

    function Status(): (code: nat)
      ensures Success() <==> 200 <= code < 300
      ensures Saved? ==> code == 201
      ensures code == 500 <==> SaveFailed?
      ensures code == 400 <==> InvalidRequest? || EmptyBatch?
    {
      match this
      case InvalidRequest(_) => 400
      case EmptyBatch => 400
      case SaveFailed(_) => 500
      case Saved(_) => 201
    }

    function Message(): (m: string)
      ensures (InvalidRequest? || SaveFailed?) ==> |reason| <= |m| && m[|m| - |reason|..] == reason
      ensures EmptyBatch? ==> m == "Received an empty sales array."
      ensures Saved? ==> m == "Successfully saved or updated sales data."
    {
      match this
      case InvalidRequest(reason) => "Invalid request data: " + reason
      case EmptyBatch => "Received an empty sales array."
      case SaveFailed(reason) => "Failed to save or update data: " + reason
      case Saved(_) => "Successfully saved or updated sales data."
    }
  }

  /** The `daily_sales_sku` table. */
  class DailySaleStore {
    var records: map<SaleKey, DailySaleSku>
    var nextId: nat

    function Table(): SalesTable
      reads this
    {
      SalesTable(records, nextId)
    }

    ghost predicate Valid()
      reads this
    {
      WellFormed(Table())
    }

    constructor ()
      ensures Valid()
      ensures records == map[] && nextId == 1
    {
      records := map[];
      nextId := 1;
    }

    /** The storage side of the upsert: each record of the batch, in order,
        inserted or merged into its (date, sku) row. */
    method UpsertBatch(batch: seq<SaleInput>, now: int)
      requires Valid()
      modifies this
      ensures Valid()
      ensures Table() == ApplySales(old(Table()), batch, now)
    {
      var i := 0;
      while i < |batch|
        invariant 0 <= i <= |batch|
        invariant Table() == ApplySales(old(Table()), batch[..i], now)
      {
        var s := batch[i];
        var k := (s.salesDate, s.sku);
        if k in records {
          records := records[k := records[k].(salesNumber := s.salesNumber)];
        } else {
          records := records[k := DailySaleSku(nextId, s.salesDate, s.sku, s.salesNumber, now, now)];
          nextId := nextId + 1;
        }
        assert batch[..i + 1][..i] == batch[..i];
        i := i + 1;
      }
      assert batch[..|batch|] == batch;
      ApplySalesWellFormed(old(Table()), batch, now);
    }

    /** The handler: a body that does not bind, or an empty array, is refused
        before storage is reached; otherwise the batch is upserted in one
        statement, and a storage error leaves the table as it was.
        `storageError` is the error the database reports, if any, and
        `rowsAffected` the count it reports on success. */
    method CreateDailySaleSku(body: BindResult, storageError: Option<string>, rowsAffected: nat, now: int)
      returns (reply: SalesReply)
      requires Valid()
      modifies this
      ensures Valid()
      ensures reply.Success() <==> body.Bound? && body.sales != [] && storageError.None?
      ensures body.BindFailed? ==> reply == InvalidRequest(body.reason)
      ensures body.Bound? && body.sales == [] ==> reply == EmptyBatch
      ensures body.Bound? && body.sales != [] && storageError.Some? ==> reply == SaveFailed(storageError.value)
      ensures reply.Success() ==> reply == Saved(rowsAffected)
      ensures reply.Success() ==> Table() == ApplySales(old(Table()), body.sales, now)
      ensures !reply.Success() ==> Table() == old(Table())
    {
      if body.BindFailed? {
        return InvalidRequest(body.reason);
      }
      if |body.sales| == 0 {
        return EmptyBatch;
      }
      if storageError.Some? {
        return SaveFailed(storageError.value);
      }
      UpsertBatch(body.sales, now);
      reply := Saved(rowsAffected);
    }
  }
}
