/** The row stage of the spreadsheet upload (server/handler/product_handler.go,
    UploadProducts): which rows of the first sheet become products, and how a
    row's cells map onto a product record. */
module ProductRows {
  import opened Strconv

  /** The product record as the upload handler fills it
      (product_handler.go:94-107).  The struct declared in
      server/model/product.go has different fields (ShopName, SKC, ItemCode, ...)
      and a unique index on (shop_name, skc) instead of `sku`; it holds none of
      ShopID, ShopCode, SKU, SkcCode, SkuCode, ColorCN, ColorEN, Size, ImageURL
      or BarCode.  This model follows the handler, whose upsert is keyed on `sku`. */
  datatype Product = Product(
    shopId: int,
    shopCode: string,
    spu: string,
    skc: string,
    sku: string,
    skcCode: string,
    skuCode: string,
    colorCN: string,
    colorEN: string,
    size: string,
    imageURL: string,
    barCode: string)

  /** A spreadsheet row: its cells as text, as the workbook reader returns them. */
  type Row = seq<string>

  /** The number of cells a row needs to be read as a product. */
  const MinColumns: nat := 12

  /** The shop id of a row: the cell parsed as a 64-bit decimal integer with the
      parse error discarded, so non-numeric text gives 0 and out-of-range text
      the nearest 64-bit bound. */
  function ShopId(cell: string): (id: int)
    ensures MinInt64 <= id <= MaxInt64
    ensures !IsSignedDecimal(cell) ==> id == 0
    ensures IsSignedDecimal(cell) && MinInt64 <= SignedValue(cell) <= MaxInt64 ==> id == SignedValue(cell)
    ensures IsSignedDecimal(cell) && SignedValue(cell) > MaxInt64 ==> id == MaxInt64
    ensures IsSignedDecimal(cell) && SignedValue(cell) < MinInt64 ==> id == MinInt64
  {
    ParseInt64(cell).0
  }

  /** Cells 0..11, by position, onto the twelve fields. */
  function RowToProduct(row: Row): (p: Product)
    requires |row| >= MinColumns
    ensures p.shopId == ShopId(row[0])
    ensures ProductToRow(p)[1..] == row[1..MinColumns]
  {
    Product(ShopId(row[0]), row[1], row[2], row[3], row[4], row[5],
            row[6], row[7], row[8], row[9], row[10], row[11])
  }

  /** The row a product is written as: the shop id in decimal, then the other
      eleven fields in column order. */
  function ProductToRow(p: Product): (row: Row)
    ensures |row| == MinColumns
  {
    [FormatInt(p.shopId), p.shopCode, p.spu, p.skc, p.sku, p.skcCode,
     p.skuCode, p.colorCN, p.colorEN, p.size, p.imageURL, p.barCode]
  }

  /** Reading back the row a product is written as gives the product again. */
  lemma RowProductRoundTrip(p: Product)
    requires MinInt64 <= p.shopId <= MaxInt64
    ensures RowToProduct(ProductToRow(p)) == p
  {
    ParseFormatInt64(p.shopId);
  }

  /** Only the first twelve cells matter: rows that agree on them give the same product. */
  lemma RowToProductReadsTwelveCells(row1: Row, row2: Row)
    requires |row1| >= MinColumns && |row2| >= MinColumns
    requires row1[..MinColumns] == row2[..MinColumns]
    ensures RowToProduct(row1) == RowToProduct(row2)
  {
  }

  /** A shop-id cell that is not a number does not reject the row: every other
      field is still taken from its cell and the shop id is 0. */
  lemma NonNumericShopIdIsZero(row: Row)
    requires |row| >= MinColumns && !IsSignedDecimal(row[0])
    ensures RowToProduct(row).shopId == 0 && RowToProduct(row).sku == row[4]
  {
  }

  /** What one non-header row contributes: its product, or nothing when it has
      fewer than twelve cells. */
  function RowContribution(row: Row): (ps: seq<Product>)
    ensures |ps| <= 1
    ensures |ps| == 1 <==> |row| >= MinColumns
    ensures |ps| == 1 ==> ps[0] == RowToProduct(row)
  {
    if |row| < MinColumns then [] else [RowToProduct(row)]
  }

  /** The products of the rows after the header, in row order. */
  function BodyProducts(body: seq<Row>): (ps: seq<Product>)
    ensures |ps| <= |body|
    ensures body != [] && |body[|body| - 1]| >= MinColumns ==> ps != [] && ps[|ps| - 1] == RowToProduct(body[|body| - 1])
  {
    if body == [] then [] else BodyProducts(body[..|body| - 1]) + RowContribution(body[|body| - 1])
  }

  /** The products a sheet yields: the first row is the header and is skipped. */
  function AcceptedProducts(sheet: seq<Row>): (ps: seq<Product>)
    ensures sheet == [] ==> ps == []
    ensures sheet != [] ==> |ps| < |sheet|
  {
    if sheet == [] then [] else BodyProducts(sheet[1..])
  }

  lemma {:induction false} BodyProductsAppend(a: seq<Row>, b: seq<Row>)
    ensures BodyProducts(a + b) == BodyProducts(a) + BodyProducts(b)
    decreases |b|
  {
    if b == [] {
      assert a + b == a;
    } else {
      var init := b[..|b| - 1];
      assert (a + b)[..|a + b| - 1] == a + init;
      BodyProductsAppend(a, init);
    }
  }

  /** The header row is skipped whatever it holds. */
  lemma HeaderIgnored(header1: Row, header2: Row, rest: seq<Row>)
    ensures AcceptedProducts([header1] + rest) == AcceptedProducts([header2] + rest)
  {
  }

  /** A non-header row with fewer than twelve cells is skipped, and the rows
      after it are processed as if it were not there. */
  lemma ShortRowSkipped(before: seq<Row>, row: Row, after: seq<Row>)
    requires |before| >= 1 && |row| < MinColumns
    ensures AcceptedProducts(before + [row] + after) == AcceptedProducts(before + after)
  {
    var body := before[1..];
    assert (before + [row] + after)[1..] == (body + [row]) + after;
    assert (before + after)[1..] == body + after;
    assert (body + [row])[..|body|] == body;
    calc {
      BodyProducts((body + [row]) + after);
      { BodyProductsAppend(body + [row], after); }
      BodyProducts(body + [row]) + BodyProducts(after);
      BodyProducts(body) + BodyProducts(after);
      { BodyProductsAppend(body, after); }
      BodyProducts(body + after);
    }
  }

  /** A non-header row with twelve or more cells yields its product, in its
      position among the others. */
  lemma FullRowAccepted(before: seq<Row>, row: Row, after: seq<Row>)
    requires |before| >= 1 && |row| >= MinColumns
    ensures AcceptedProducts(before + [row] + after)
         == AcceptedProducts(before) + [RowToProduct(row)] + BodyProducts(after)
  {
    var body := before[1..];
    assert (before + [row] + after)[1..] == body + [row] + after;
    BodyProductsAppend(body + [row], after);
    assert (body + [row])[..|body|] == body;
    assert BodyProducts(body + [row]) == BodyProducts(body) + RowContribution(row);
  }

  /** A product comes out of the sheet exactly when some non-header row with
      twelve or more cells maps to it. */
  lemma {:induction false} BodyProductsMembership(body: seq<Row>, p: Product)
    ensures p in BodyProducts(body) <==> exists i :: 0 <= i < |body| && |body[i]| >= MinColumns && RowToProduct(body[i]) == p
  {
    if body != [] {
      var init := body[..|body| - 1];
      BodyProductsMembership(init, p);
      if p in BodyProducts(init) {
        var i :| 0 <= i < |init| && |init[i]| >= MinColumns && RowToProduct(init[i]) == p;
        assert body[i] == init[i];
      }
      if exists i :: 0 <= i < |body| && |body[i]| >= MinColumns && RowToProduct(body[i]) == p {
        var i :| 0 <= i < |body| && |body[i]| >= MinColumns && RowToProduct(body[i]) == p;
        if i < |init| { assert init[i] == body[i]; }
      }
    }
  }

  /** A sheet yields no product exactly when every row after the header is short. */
  lemma {:induction false} BodyProductsEmpty(body: seq<Row>)
    ensures BodyProducts(body) == [] <==> forall i :: 0 <= i < |body| ==> |body[i]| < MinColumns
  {
    if body != [] {
      var init := body[..|body| - 1];
      BodyProductsEmpty(init);
      assert forall i :: 0 <= i < |init| ==> init[i] == body[i];
    }
  }

  /** The row loop of the upload handler: skip the header, skip short rows,
      append the product of every other row. */
  method CollectProducts(rows: seq<Row>) returns (products: seq<Product>)
    ensures products == AcceptedProducts(rows)
  {
    products := [];
    for i := 0 to |rows|
      invariant products == if i == 0 then [] else BodyProducts(rows[1..i])
    {
      if i == 0 {
        continue;
      }
      var row := rows[i];
      assert rows[1..i + 1][..i - 1] == rows[1..i];
      assert BodyProducts(rows[1..i + 1]) == BodyProducts(rows[1..i]) + RowContribution(row);
      if |row| < MinColumns {
        continue;
      }
      var shopId := ShopId(row[0]);
      var product := Product(shopId, row[1], row[2], row[3], row[4], row[5],
                             row[6], row[7], row[8], row[9], row[10], row[11]);
      assert product == RowToProduct(row);
      products := products + [product];
    }
    if |rows| > 0 {
      assert rows[1..|rows|] == rows[1..];
    }
  }
}
