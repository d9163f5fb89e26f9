/** The product endpoints of server/handler/product_handler.go: the
    spreadsheet upload, merged into the `products` table by insert-or-update
    on `sku`, the delete by surrogate id, and the full listing. */
module ProductHandler {
  import opened Options
  import opened Strconv
  import opened ProductRows

  /** The stored state of the `products` table: rows by surrogate id, and the
      next value of the auto-increment primary key. */
  datatype ProductTable = ProductTable(rows: map<nat, Product>, nextId: nat)

  /** Ids are positive and below `nextId`, and no two rows share a SKU (the
      unique key the upsert's conflict clause names). */
  ghost predicate WellFormed(t: ProductTable) {
    && 1 <= t.nextId
    && (forall id :: id in t.rows ==> 1 <= id < t.nextId)
    && (forall i, j :: i in t.rows && j in t.rows && t.rows[i].sku == t.rows[j].sku ==> i == j)
  }

  ghost predicate Stores(t: ProductTable, sku: string) {
    exists id :: id in t.rows && t.rows[id].sku == sku
  }

  /** One record of the upsert: on a SKU conflict the stored row keeps its id and
      takes all eleven update columns (shop_id .. bar_code) from the incoming
      product; otherwise the product is inserted under a fresh id. */
  ghost function UpsertProduct(t: ProductTable, p: Product): (r: ProductTable)
    ensures t.rows.Keys <= r.rows.Keys
    ensures r.nextId == if Stores(t, p.sku) then t.nextId else t.nextId + 1
  {
    if Stores(t, p.sku) then
      var id :| id in t.rows && t.rows[id].sku == p.sku;
      t.(rows := t.rows[id := p])
    else
      ProductTable(t.rows[t.nextId := p], t.nextId + 1)
  }

  /** In a well-formed table the row a conflict overwrites is the only one with the SKU. */
  lemma UpsertProductAt(t: ProductTable, p: Product, id: nat)
    requires WellFormed(t) && id in t.rows && t.rows[id].sku == p.sku
    ensures UpsertProduct(t, p) == t.(rows := t.rows[id := p])
  {
  }

  /** The whole batch, applied product by product in row order. */
  ghost function ApplyProducts(t: ProductTable, batch: seq<Product>): (r: ProductTable)
    ensures t.rows.Keys <= r.rows.Keys
    ensures t.nextId <= r.nextId <= t.nextId + |batch|
  {
    if batch == [] then t
    else UpsertProduct(ApplyProducts(t, batch[..|batch| - 1]), batch[|batch| - 1])
  }

  /** The SKUs a batch mentions. */
  function BatchSkus(batch: seq<Product>): set<string> {
    if batch == [] then {} else BatchSkus(batch[..|batch| - 1]) + {batch[|batch| - 1].sku}
  }

  /** The last product of the batch with the given SKU. */
  function LastWithSku(batch: seq<Product>, sku: string): (p: Product)
    requires sku in BatchSkus(batch)
    ensures p.sku == sku && p in batch
  {
    var last := batch[|batch| - 1];
    if last.sku == sku then last else LastWithSku(batch[..|batch| - 1], sku)
  }

  /** LastWithSku is the product at the last position carrying the SKU. */
  lemma {:induction false} LastWithSkuIsLastOccurrence(batch: seq<Product>, sku: string)
    requires sku in BatchSkus(batch)
    ensures exists j :: 0 <= j < |batch| && batch[j] == LastWithSku(batch, sku)
                        && forall i :: j < i < |batch| ==> batch[i].sku != sku
  {
    var n := |batch| - 1;
    if batch[n].sku != sku {
      var init := batch[..n];
      LastWithSkuIsLastOccurrence(init, sku);
      var j :| 0 <= j < |init| && init[j] == LastWithSku(init, sku)
               && forall i :: j < i < |init| ==> init[i].sku != sku;
      assert batch[j] == LastWithSku(batch, sku);
      forall i | j < i < |batch| ensures batch[i].sku != sku {
        if i < n { assert batch[i] == init[i]; }
      }
    }
  }

  lemma UpsertProductWellFormed(t: ProductTable, p: Product)
    requires WellFormed(t)
    ensures WellFormed(UpsertProduct(t, p))
  {
  }

  /** No batch can make two rows share a SKU. */
  lemma {:induction false} ApplyProductsWellFormed(t: ProductTable, batch: seq<Product>)
    requires WellFormed(t)
    ensures WellFormed(ApplyProducts(t, batch))
  {
    if batch != [] {
      ApplyProductsWellFormed(t, batch[..|batch| - 1]);
      UpsertProductWellFormed(ApplyProducts(t, batch[..|batch| - 1]), batch[|batch| - 1]);
    }
  }

  /** One step leaves alone every stored row whose SKU differs from the incoming one. */
  lemma UpsertProductOtherRows(t: ProductTable, p: Product, id: nat)
    requires WellFormed(t) && id in t.rows && t.rows[id].sku != p.sku
    ensures id in UpsertProduct(t, p).rows && UpsertProduct(t, p).rows[id] == t.rows[id]
  {
  }

  /** A row whose SKU the batch does not mention is left exactly as it was. */
  lemma {:induction false} ApplyProductsOutsideBatch(t: ProductTable, batch: seq<Product>, id: nat)
    requires WellFormed(t) && id in t.rows && t.rows[id].sku !in BatchSkus(batch)
    ensures id in ApplyProducts(t, batch).rows
    ensures ApplyProducts(t, batch).rows[id] == t.rows[id]
  {
    if batch != [] {
      var init := batch[..|batch| - 1];
      ApplyProductsOutsideBatch(t, init, id);
      ApplyProductsWellFormed(t, init);
      UpsertProductOtherRows(ApplyProducts(t, init), batch[|batch| - 1], id);
    }
  }

  /** A row whose SKU the batch mentions keeps its surrogate id and holds the last
      product of the batch with that SKU. */
  lemma {:induction false} ApplyProductsKeepsId(t: ProductTable, batch: seq<Product>, id: nat)
    requires WellFormed(t) && id in t.rows && t.rows[id].sku in BatchSkus(batch)
    ensures id in ApplyProducts(t, batch).rows
    ensures ApplyProducts(t, batch).rows[id] == LastWithSku(batch, t.rows[id].sku)
  {
    var init := batch[..|batch| - 1];
    var p := batch[|batch| - 1];
    var sku := t.rows[id].sku;
    var mid := ApplyProducts(t, init);
    ApplyProductsWellFormed(t, init);
    if sku in BatchSkus(init) {
      ApplyProductsKeepsId(t, init, id);
    } else {
      ApplyProductsOutsideBatch(t, init, id);
    }
    assert id in mid.rows && mid.rows[id].sku == sku;
    if p.sku != sku {
      UpsertProductOtherRows(mid, p, id);
    }
  }

  lemma UpsertProductStores(t: ProductTable, p: Product)
    requires WellFormed(t)
    ensures Stores(UpsertProduct(t, p), p.sku)
  {
    if Stores(t, p.sku) {
      var id :| id in t.rows && t.rows[id].sku == p.sku;
      assert UpsertProduct(t, p).rows[id] == p;
    } else {
      assert UpsertProduct(t, p).rows[t.nextId] == p;
    }
  }

  /** Every SKU of the batch is stored afterwards. */
  lemma {:induction false} ApplyProductsStoresBatch(t: ProductTable, batch: seq<Product>, sku: string)
    requires WellFormed(t) && sku in BatchSkus(batch)
    ensures Stores(ApplyProducts(t, batch), sku)
  {
    var init := batch[..|batch| - 1];
    var p := batch[|batch| - 1];
    var mid := ApplyProducts(t, init);
    ApplyProductsWellFormed(t, init);
    if p.sku != sku {
      ApplyProductsStoresBatch(t, init, sku);
      var id :| id in mid.rows && mid.rows[id].sku == sku;
      UpsertProductOtherRows(mid, p, id);
    } else {
      UpsertProductStores(mid, p);
    }
  }

  /** A row that was not stored before comes from the batch: it has a fresh id,
      a SKU of the batch that no earlier row had, and the last product of the
      batch with that SKU. */
  lemma {:induction false} ApplyProductsNewRows(t: ProductTable, batch: seq<Product>, id: nat)
    requires WellFormed(t)
    requires id in ApplyProducts(t, batch).rows && id !in t.rows
    ensures var p := ApplyProducts(t, batch).rows[id];
      && t.nextId <= id < ApplyProducts(t, batch).nextId
      && p.sku in BatchSkus(batch) && !Stores(t, p.sku)
      && p == LastWithSku(batch, p.sku)
  {
    var init := batch[..|batch| - 1];
    var last := batch[|batch| - 1];
    var mid := ApplyProducts(t, init);
    ApplyProductsWellFormed(t, init);
    ApplyProductsNextIdGrows(t, init);
    var p := ApplyProducts(t, batch).rows[id];
    if id in mid.rows {
      ApplyProductsNewRows(t, init, id);
      if mid.rows[id].sku == last.sku {
        assert p == last;
      } else {
        UpsertProductOtherRows(mid, last, id);
      }
    } else {
      assert p == last && id == mid.nextId;
      if Stores(t, p.sku) {
        var old_id :| old_id in t.rows && t.rows[old_id].sku == p.sku;
        if p.sku in BatchSkus(init) {
          ApplyProductsKeepsId(t, init, old_id);
        } else {
          ApplyProductsOutsideBatch(t, init, old_id);
        }
        assert false;
      }
    }
  }

  lemma {:induction false} ApplyProductsNextIdGrows(t: ProductTable, batch: seq<Product>)
    ensures t.nextId <= ApplyProducts(t, batch).nextId
  {
    if batch != [] {
      ApplyProductsNextIdGrows(t, batch[..|batch| - 1]);
    }
  }

  /** After the upsert every SKU of the batch has exactly one stored product, and
      it is the last product of the batch with that SKU. */
  lemma ExactlyOneRowPerBatchSku(t: ProductTable, batch: seq<Product>, sku: string)
    requires WellFormed(t) && sku in BatchSkus(batch)
    ensures exists id :: && id in ApplyProducts(t, batch).rows
                         && ApplyProducts(t, batch).rows[id] == LastWithSku(batch, sku)
                         && forall j :: j in ApplyProducts(t, batch).rows && ApplyProducts(t, batch).rows[j].sku == sku ==> j == id
  {
    var r := ApplyProducts(t, batch);
    ApplyProductsWellFormed(t, batch);
    ApplyProductsStoresBatch(t, batch, sku);
    var id :| id in r.rows && r.rows[id].sku == sku;
    if id in t.rows {
      if t.rows[id].sku in BatchSkus(batch) {
        ApplyProductsKeepsId(t, batch, id);
      } else {
        ApplyProductsOutsideBatch(t, batch, id);
      }
    } else {
      ApplyProductsNewRows(t, batch, id);
    }
  }

  /** Uploading the same products again leaves the table as the first upload left it. */
  lemma ApplyProductsIdempotent(t: ProductTable, batch: seq<Product>)
    requires WellFormed(t)
    ensures ApplyProducts(ApplyProducts(t, batch), batch) == ApplyProducts(t, batch)
  {
    var once := ApplyProducts(t, batch);
    var twice := ApplyProducts(once, batch);
    ApplyProductsWellFormed(t, batch);
    forall sku | sku in BatchSkus(batch) ensures Stores(once, sku) {
      ApplyProductsStoresBatch(t, batch, sku);
    }
    ApplyProductsNoInsert(once, batch);
    forall id | id in once.rows ensures id in twice.rows && twice.rows[id] == once.rows[id] {
      var sku := once.rows[id].sku;
      if sku in BatchSkus(batch) {
        ApplyProductsKeepsId(once, batch, id);
        if id in t.rows {
          if t.rows[id].sku in BatchSkus(batch) {
            ApplyProductsKeepsId(t, batch, id);
          } else {
            ApplyProductsOutsideBatch(t, batch, id);
          }
        } else {
          ApplyProductsNewRows(t, batch, id);
        }
      } else {
        ApplyProductsOutsideBatch(once, batch, id);
      }
    }
    assert twice.rows.Keys == once.rows.Keys;
  }

  /** A batch whose SKUs are all stored inserts nothing: the same ids, the same counter. */
  lemma {:induction false} ApplyProductsNoInsert(t: ProductTable, batch: seq<Product>)
    requires WellFormed(t)
    requires forall sku :: sku in BatchSkus(batch) ==> Stores(t, sku)
    ensures ApplyProducts(t, batch).rows.Keys == t.rows.Keys
    ensures ApplyProducts(t, batch).nextId == t.nextId
  {
    if batch != [] {
      var init := batch[..|batch| - 1];
      var p := batch[|batch| - 1];
      assert BatchSkus(batch) == BatchSkus(init) + {p.sku};
      ApplyProductsNoInsert(t, init);
      ApplyProductsWellFormed(t, init);
      var mid := ApplyProducts(t, init);
      var id :| id in t.rows && t.rows[id].sku == p.sku;
      if p.sku in BatchSkus(init) {
        ApplyProductsKeepsId(t, init, id);
      } else {
        ApplyProductsOutsideBatch(t, init, id);
      }
      assert Stores(mid, p.sku);
    }
  }

  /** Where the workbook reading stops, or the rows of its first sheet. */
  datatype SheetSource =
    | NoFile            // the multipart form has no "file" part
    | CannotOpen        // the uploaded file cannot be opened
    | NotAWorkbook      // the file is not a readable workbook
    | RowsUnavailable   // the first sheet's rows cannot be read
    | Sheet(rows: seq<Row>)

  /** The reply of the upload endpoint. */
  datatype UploadReply =
    | UploadFailed
    | OpenFailed
    | ReadFailed
    | RowsFailed
    | NoValidProducts
    | StorageFailed(reason: string)
    | Processed(count: nat)
  {
    function Status(): (code: nat)
      ensures code == 200 <==> Processed?
      ensures code == 400 <==> UploadFailed? || NoValidProducts?
      ensures code == 200 || code == 400 || code == 500
    {
      match this
      case UploadFailed => 400
      case NoValidProducts => 400
      case Processed(_) => 200
      case _ => 500
    }

    function Message(): (m: string)
      ensures StorageFailed? ==> |reason| <= |m| && m[|m| - |reason|..] == reason
      ensures Processed? ==> |m| > 10 && m[5..|m| - 5] == Itoa(count) && DigitsValue(m[5..|m| - 5]) == count
    {
      match this
      case UploadFailed => "文件上传失败"
      case OpenFailed => "无法打开上传的文件"
      case ReadFailed => "无法读取Excel文件"
      case RowsFailed => "无法从工作表获取行"
      case NoValidProducts => "文件中未找到有效的商品数据"
      case StorageFailed(reason) => "数据库操作失败: " + reason
      case Processed(count) => ItoaRoundTrip(count); "成功处理 " + Itoa(count) + " 件商品。"
    }
  }

  /** The reply of the delete endpoint. */
  datatype DeleteReply = InvalidId | DeleteFailed | Deleted
  {
    function Status(): (code: nat)
      ensures code == 200 <==> Deleted?
      ensures code == 400 <==> InvalidId?
      ensures code == 500 <==> DeleteFailed?
    {
      match this
      case InvalidId => 400
      case DeleteFailed => 500
      case Deleted => 200
    }

    function Message(): (m: string)
      ensures m == "商品删除成功" <==> Deleted?
    {
      match this
      case InvalidId => "无效的商品ID"
      case DeleteFailed => "删除商品失败"
      case Deleted => "商品删除成功"
    }
  }

  /** The reply of the listing endpoint. */
  datatype ListReply = ListFailed | Listed(rows: map<nat, Product>)

  /** The `products` table. */
  class ProductStore {
    var rows: map<nat, Product>
    var nextId: nat

    function Table(): ProductTable
      reads this
    {
      ProductTable(rows, nextId)
    }

    ghost predicate Valid()
      reads this
    {
      WellFormed(Table())
    }

    constructor ()
      ensures Valid()
      ensures rows == map[] && nextId == 1
    {
      rows := map[];
      nextId := 1;
    }

    /** The storage side of the upload: each product, in row order, inserted or
        merged into the row with its SKU. */
    method UpsertAll(batch: seq<Product>)
      requires Valid()
      modifies this
      ensures Valid()
      ensures Table() == ApplyProducts(old(Table()), batch)
    {
      for i := 0 to |batch|
        invariant WellFormed(Table())
        invariant Table() == ApplyProducts(old(Table()), batch[..i])
      {
        var p := batch[i];
        ghost var before := Table();
        assert batch[..i + 1][..i] == batch[..i];
        assert ApplyProducts(old(Table()), batch[..i + 1]) == UpsertProduct(before, p);
        UpsertProductWellFormed(before, p);
        if exists id :: id in rows && rows[id].sku == p.sku {
          var id :| id in rows && rows[id].sku == p.sku;
          UpsertProductAt(before, p, id);
          rows := rows[id := p];
        } else {
          assert !Stores(before, p.sku);
          rows := rows[nextId := p];
          nextId := nextId + 1;
        }
        assert Table() == UpsertProduct(before, p);
      }
      assert batch[..|batch|] == batch;
    }

    /** The upload handler.  Errors before the rows are available, and a sheet
        without any product row, leave the table untouched; otherwise all
        accepted products go to storage in one statement, and a storage error
        leaves the table as it was.  The count reported is that of the accepted
        rows, duplicates included. */
    method UploadProducts(source: SheetSource, storageError: Option<string>) returns (reply: UploadReply)
      requires Valid()
      modifies this
      ensures Valid()
      ensures source.NoFile? ==> reply == UploadFailed
      ensures source.CannotOpen? ==> reply == OpenFailed
      ensures source.NotAWorkbook? ==> reply == ReadFailed
      ensures source.RowsUnavailable? ==> reply == RowsFailed
      ensures source.Sheet? && AcceptedProducts(source.rows) == [] ==> reply == NoValidProducts
      ensures source.Sheet? && AcceptedProducts(source.rows) != [] && storageError.Some? ==>
                reply == StorageFailed(storageError.value)
      ensures reply.Processed? <==> source.Sheet? && AcceptedProducts(source.rows) != [] && storageError.None?
      ensures reply.Processed? ==> reply.count == |AcceptedProducts(source.rows)|
      ensures reply.Processed? ==> Table() == ApplyProducts(old(Table()), AcceptedProducts(source.rows))
      ensures !reply.Processed? ==> Table() == old(Table())
    {
      match source {
        case NoFile => return UploadFailed;
        case CannotOpen => return OpenFailed;
        case NotAWorkbook => return ReadFailed;
        case RowsUnavailable => return RowsFailed;
        case Sheet(sheetRows) =>
          var products := CollectProducts(sheetRows);
          if |products| == 0 {
            return NoValidProducts;
          }
          if storageError.Some? {
            return StorageFailed(storageError.value);
          }
          UpsertAll(products);
          reply := Processed(|products|);
      }
    }

    /** The delete handler: the id must be unsigned decimal text that fits in 32
        bits; then the row with that id, if any, is removed.  A storage failure
        leaves the table as it was. */
    method DeleteProduct(idText: string, storageFails: bool) returns (reply: DeleteReply)
      requires Valid()
      modifies this
      ensures Valid()
      ensures ParseUint32(idText).None? ==> reply == InvalidId
      ensures ParseUint32(idText).Some? && storageFails ==> reply == DeleteFailed
      ensures reply == Deleted <==> ParseUint32(idText).Some? && !storageFails
      ensures reply == Deleted ==> rows == old(rows) - {ParseUint32(idText).value} && nextId == old(nextId)
      ensures reply != Deleted ==> Table() == old(Table())
    {
      var id := ParseUint32(idText);
      if id.None? {
        return InvalidId;
      }
      if storageFails {
        return DeleteFailed;
      }
      rows := rows - {id.value};
      reply := Deleted;
    }

    /** The listing handler: every stored row, or an error. */
    method GetProducts(storageFails: bool) returns (reply: ListReply)
      ensures reply == if storageFails then ListFailed else Listed(rows)
    {
      reply := if storageFails then ListFailed else Listed(rows);
    }
  }
}
