# Sales and product ingestion: a Dafny model

This project models the ingestion and upsert logic of a small sales-data
collector. It has two halves:

- **Browser extension.** A background script receives marketplace API payloads
  that a content script captured. It formats them into daily per-SKU sales
  records and posts them to the backend.
- **Go server.** It has two handlers that merge incoming batches into MySQL
  through GORM's insert-or-update ("upsert"):
  - a JSON handler for daily sales, keyed on (sales_date, sku), which
    overwrites only `sales_number`;
  - a spreadsheet upload handler for products, keyed on `sku`, which
    overwrites all eleven data columns.

  The server also has a delete-by-id handler and a listing handler for
  products. Only the daily-sales handler is reachable: the route table
  (server/router/router.go:15-20) registers just `POST /api/v1/sales/daily-sku`
  and leaves the product routes for later. `UploadProducts`,
  `DeleteProduct` and `GetProducts` are modelled as the handlers they are,
  whatever route may eventually reach them.

The model is organised by source file:

| file | module | models |
|---|---|---|
| `options.dfy` | `Options` | the optional value used throughout |
| `strconv.dfy` | `Strconv` | the Go `strconv` conversions the handlers call: `ParseInt(s, 10, 64)`, `ParseUint(s, 10, 32)`, and `%d` |
| `sale_record.dfy` | `SaleRecords` | `server/model/daily_sale_sku.go`: the `daily_sales_sku` row, its `uk_date_sku` key and `TableName` |
| `daily_sale_handler.dfy` | `DailySaleHandler` | `server/handler/daily_sale_handler.go`: the table as a class `DailySaleStore`, the batch upsert as a loop proved against the specification function `ApplySales`, and the handler's guards and replies |
| `product_rows.dfy` | `ProductRows` | the row stage of `UploadProducts`: header and short-row skipping, positional cell mapping, and the permissive shop-id parse, all as a loop proved against `AcceptedProducts` |
| `product_handler.dfy` | `ProductHandler` | the `products` table as a class `ProductStore`: the SKU-keyed batch upsert (specified by `ApplyProducts`), `UploadProducts`, `DeleteProduct` and `GetProducts` |
| `background.dfy` | `Background` | `extension/entrypoints/background/index.js`: JavaScript values and truthiness, `formatSalesData`, `formatInventoryData`, the `dataProcessorMap` lookup, the guards of `sendToBackend`, and the message listener |

Each batch upsert is modelled as a loop over the records in submission order.
This is how MySQL's `INSERT ... ON DUPLICATE KEY UPDATE` resolves a single
multi-row statement.

- For a key repeated within one batch, the later record wins for the update
  columns.
- The row keeps the id and `created_at` from the record's first insertion.
- A storage error leaves the table unchanged, because the statement is atomic.

Notable behaviours of the handler code, which the model follows:

- **No deduplication before storage.** Every accepted row goes to storage,
  including rows with the same key. The upload's success message counts
  duplicates.
- **Empty SKU cells are accepted.** No code checks that a SKU is non-empty.
- **A bad shop id never rejects a row.** A shop-id cell that does not parse
  gives 0.
- **The product record follows the handler.** `server/model/product.go`
  declares a `Product` with other fields (ShopName, SKC, ItemCode, ...) and a
  unique index on (shop_name, skc). The upload handler fills ShopID, ShopCode,
  SPU, SKC, SKU, SkcCode, SkuCode, ColorCN, ColorEN, Size, ImageURL and BarCode,
  and its upsert names `sku` as the conflict column. The model follows the
  handler.
- **Only `sales_number` changes on a sales conflict.** The model file says that
  `UpdatedAt` is refreshed on every update. But the sales upsert assigns only
  `sales_number` on conflict (daily_sale_handler.go:41-46), so the model keeps
  `updated_at` as it was. It sets `updated_at` only on insertion.

## Model

| member | source | states |
|---|---|---|
| `Strconv.Itoa` | server/handler/product_handler.go:131 | the `%d` text of a count is non-empty, all digits, and without a leading zero |
| `Strconv.ItoaRoundTrip` | server/handler/product_handler.go:131 | reading back the `%d` text of a count gives the count |
| `Strconv.ParseInt64` | server/handler/product_handler.go:92 | the result is always a 64-bit value; it is error-free exactly for signed decimal text within 64 bits, and is then that value; text that is not signed decimal gives 0; out-of-range decimal text gives the nearest 64-bit bound |
| `Strconv.ParseFormatInt64` | server/handler/product_handler.go:92 | ParseInt64 inverts FormatInt on the whole 64-bit range |
| `Strconv.ParseUint32` | server/handler/product_handler.go:29-33 | an id is accepted exactly when it is unsigned decimal text (no sign) with a value of at most 2^32-1, and that value is returned |
| `Strconv.ParseUint32Itoa` | server/handler/product_handler.go:29-33 | the decimal text of n parses to n when n fits in 32 bits and is rejected otherwise |
| `SaleRecords.TableName` | server/model/daily_sale_sku.go:18-20 | the table is always `daily_sales_sku` |
| `SaleRecords.AtMostOnePerKey` | server/model/daily_sale_sku.go:9-11 | in a table indexed by `uk_date_sku`, two rows with the same date and SKU are the same row; a different date or a different SKU makes a different key |
| `DailySaleHandler.UpsertSale` | server/handler/daily_sale_handler.go:44-47 | one record of the upsert: the stored keys become the old keys plus the record's key; that key then holds the record's sales number; every other row is unchanged; the id counter advances exactly when the key was new |
| `DailySaleHandler.ApplySales` | server/handler/daily_sale_handler.go:44-47 | the batch applied record by record in submission order: no row is ever removed, and the counter advances by at most one per record |
| `DailySaleHandler.BatchKeysMembership` | server/handler/daily_sale_handler.go:44-47 | a key is among the batch's keys exactly when some record of the batch has it |
| `DailySaleHandler.LatestNumberIsLastOccurrence` | server/handler/daily_sale_handler.go:44-47 | the sales number a key ends with is that of the last record of the batch with that key |
| `DailySaleHandler.ApplySalesWellFormed` | server/model/daily_sale_sku.go:9-11 | after any batch, every row sits under its own (date, sku) and ids stay unique and below the counter |
| `DailySaleHandler.ApplySalesKeys` | server/handler/daily_sale_handler.go:38-47 | the stored keys after a batch are the old keys plus the batch's keys, and no others |
| `DailySaleHandler.ApplySalesNextId` | server/handler/daily_sale_handler.go:44-47 | the auto-increment counter advances once per batch key that was not stored before |
| `DailySaleHandler.ApplySalesOutsideBatch` | server/handler/daily_sale_handler.go:38-47 | rows whose key the batch does not mention are unchanged |
| `DailySaleHandler.ApplySalesUpdatesOnlyNumber` | server/handler/daily_sale_handler.go:41-46 | a stored row that the batch mentions keeps its id, date, SKU, created_at and updated_at; only sales_number changes, to the last incoming value for its key |
| `DailySaleHandler.ApplySalesInserts` | server/handler/daily_sale_handler.go:44-47 | a key that was not stored is inserted with a fresh id, its own date and SKU, the last incoming sales number, and both timestamps set to the request time |
| `DailySaleHandler.ApplySalesIdempotent` | server/handler/daily_sale_handler.go:44-47 | applying the same batch a second time, at any later time, leaves the table exactly as the first application left it |
| `DailySaleHandler.DistinctKeysCoexist` | server/model/daily_sale_sku.go:10-11 | two records that differ in the date alone or in the SKU alone are both stored, each with its own sales number |
| `DailySaleHandler.SalesReply.Status` | server/handler/daily_sale_handler.go:20-60 | the status is 2xx exactly for success, and then 201; 500 exactly for a storage failure, and 400 exactly for a bind failure or an empty array (lines 20, 31, 50, 57) |
| `DailySaleHandler.SalesReply.Message` | server/handler/daily_sale_handler.go:20-60 | the message of a bind failure or a storage failure ends with the underlying error text (lines 22 and 52); an empty array gets "Received an empty sales array." and a success gets "Successfully saved or updated sales data." (lines 33 and 59) |
| `DailySaleHandler.DailySaleStore.UpsertBatch` | server/handler/daily_sale_handler.go:44-47 | the record-by-record loop leaves the table equal to ApplySales of the old table, and keeps the table invariant |
| `DailySaleHandler.DailySaleStore.CreateDailySaleSku` | server/handler/daily_sale_handler.go:15-62 | a bind failure gives InvalidRequest with the bind error, an empty array gives EmptyBatch, and a storage error gives SaveFailed; in all three the table is unchanged; success happens exactly when the batch is non-empty and storage succeeds, and then reports the affected-row count and the table is ApplySales of the old one |
| `ProductRows.ShopId` | server/handler/product_handler.go:92 | the shop id is the value of signed decimal text within 64 bits; text that is not signed decimal gives 0; out-of-range decimal text gives the nearest 64-bit bound; the row is never rejected |
| `ProductRows.RowToProduct` | server/handler/product_handler.go:92-107 | the shop id is the permissive parse of cell 0, and the eleven text fields, written back in column order, are exactly cells 1..11 |
| `ProductRows.RowProductRoundTrip` | server/handler/product_handler.go:94-107 | cells 0..11 map positionally onto ShopID, ShopCode, SPU, SKC, SKU, SkcCode, SkuCode, ColorCN, ColorEN, Size, ImageURL and BarCode: reading the row a product is written as gives that product back |
| `ProductRows.RowToProductReadsTwelveCells` | server/handler/product_handler.go:94-107 | cells beyond index 11 are ignored: rows that agree on their first twelve cells give the same product |
| `ProductRows.NonNumericShopIdIsZero` | server/handler/product_handler.go:92 | a non-numeric shop-id cell does not reject the row; its shop id is 0 and its SKU is still cell 4 |
| `ProductRows.BodyProductsAppend` | server/handler/product_handler.go:76-109 | the products of consecutive runs of rows are the concatenation of their products, so the rows are processed independently and in order |
| `ProductRows.HeaderIgnored` | server/handler/product_handler.go:76-80 | the first row is skipped whatever it contains or however wide it is |
| `ProductRows.ShortRowSkipped` | server/handler/product_handler.go:87-90 | a non-header row with fewer than 12 cells contributes nothing, and the rows after it are processed as if it were absent |
| `ProductRows.FullRowAccepted` | server/handler/product_handler.go:92-108 | a non-header row with at least 12 cells contributes its product, at its own position |
| `ProductRows.BodyProductsMembership` | server/handler/product_handler.go:85-108 | a product comes out exactly when some non-header row with at least 12 cells maps to it |
| `ProductRows.BodyProductsEmpty` | server/handler/product_handler.go:111-115 | no product comes out exactly when every non-header row has fewer than 12 cells |
| `ProductRows.RowContribution` | server/handler/product_handler.go:87-108 | a row contributes exactly one product when it has at least 12 cells, and that product is the row's positional mapping; otherwise it contributes nothing |
| `ProductRows.BodyProducts` | server/handler/product_handler.go:76-109 | at most one product per non-header row; when the last row has at least 12 cells, the last product is that row's |
| `ProductRows.AcceptedProducts` | server/handler/product_handler.go:76-109 | an empty sheet yields nothing, and a sheet yields fewer products than it has rows, because the header never contributes |
| `ProductRows.CollectProducts` | server/handler/product_handler.go:72-109 | the row loop returns exactly AcceptedProducts of the sheet |
| `ProductHandler.UpsertProduct` | server/handler/product_handler.go:120-123 | one product of the upsert: no stored id disappears, and the id counter advances exactly when no stored row had the product's SKU |
| `ProductHandler.ApplyProducts` | server/handler/product_handler.go:117-123 | the batch applied product by product in row order: no stored id disappears, and the counter advances by at most one per product |
| `ProductHandler.LastWithSku` | server/handler/product_handler.go:120-123 | the product a SKU ends with is a product of the batch with that SKU |
| `ProductHandler.LastWithSkuIsLastOccurrence` | server/handler/product_handler.go:120-123 | it is the product at the last position of the batch with that SKU |
| `ProductHandler.ApplyProductsWellFormed` | server/handler/product_handler.go:120-122 | no batch can make two stored products share a SKU; ids stay positive and below the counter |
| `ProductHandler.ApplyProductsOutsideBatch` | server/handler/product_handler.go:117-123 | products whose SKU is absent from the batch keep their id and all their fields |
| `ProductHandler.ApplyProductsKeepsId` | server/handler/product_handler.go:120-123 | a stored product whose SKU is in the batch keeps its surrogate id and afterwards holds all the columns of the last product of the batch with that SKU |
| `ProductHandler.ApplyProductsStoresBatch` | server/handler/product_handler.go:117-123 | every SKU of the batch is stored afterwards |
| `ProductHandler.ApplyProductsNewRows` | server/handler/product_handler.go:117-123 | every row that did not exist before has a fresh id and a SKU from the batch that was not stored before, and holds the last product of the batch with that SKU |
| `ProductHandler.ExactlyOneRowPerBatchSku` | server/handler/product_handler.go:117-123 | after the upsert each accepted SKU has exactly one stored product, and it is the last accepted row with that SKU |
| `ProductHandler.ApplyProductsIdempotent` | server/handler/product_handler.go:117-123 | uploading the same products again leaves the table as the first upload left it |
| `ProductHandler.ApplyProductsNoInsert` | server/handler/product_handler.go:117-123 | a batch whose SKUs are all stored creates no row and leaves the id counter alone |
| `ProductHandler.UploadReply.Status` | server/handler/product_handler.go:45-133 | the upload answers 200 exactly on success (line 130), 400 exactly for a missing file or no valid product (lines 48 and 113), and 500 otherwise (lines 54, 61, 68, 126) |
| `ProductHandler.UploadReply.Message` | server/handler/product_handler.go:126-132 | a storage failure's message ends with the error text; the success message carries the `%d` text of the count, from which the count reads back |
| `ProductHandler.DeleteReply.Status` | server/handler/product_handler.go:31-40 | the delete answers 200 exactly on success, 400 exactly for an invalid id, and 500 exactly for a storage failure |
| `ProductHandler.DeleteReply.Message` | server/handler/product_handler.go:31-40 | the text 商品删除成功 is given exactly on success |
| `ProductHandler.ProductStore.UpsertAll` | server/handler/product_handler.go:120-123 | the product-by-product loop leaves the table equal to ApplyProducts of the old table, and keeps the unique-SKU invariant |
| `ProductHandler.ProductStore.UploadProducts` | server/handler/product_handler.go:45-133 | each failure to get the rows gives its own reply; no accepted row gives NoValidProducts; a storage error gives StorageFailed; in all of these the table is unchanged; otherwise the reply counts the accepted rows, duplicates included, and the table is ApplyProducts of the old one over exactly those rows |
| `ProductHandler.ProductStore.DeleteProduct` | server/handler/product_handler.go:27-41 | an id that is not 32-bit unsigned decimal is refused, and a storage failure is reported; in both the table is unchanged; otherwise exactly the row with that id, if any, is removed |
| `ProductHandler.ProductStore.GetProducts` | server/handler/product_handler.go:17-24 | the listing returns every stored product, or an error |
| `Background.GetProperty` | extension/entrypoints/background/index.js:19-27 | property access throws exactly on undefined and null, and reads an object's own field or undefined |
| `Background.ItemToRecord` | extension/entrypoints/background/index.js:24-28 | an element maps to a record unless it is null or undefined, where the field read throws |
| `Background.FormatSalesData` | extension/entrypoints/background/index.js:17-29 | records come out exactly for an object payload with a truthy success and a non-empty result array of readable elements; the output has the same length and order as result, with each element mapped as date, prodSkuId, salesNumber; it is never an empty array |
| `Background.FormatSalesNullIff` | extension/entrypoints/background/index.js:19-22 | null comes out exactly when the payload, its result, the result's length, or its success is falsy |
| `Background.EmptyResultIsNull` | extension/entrypoints/background/index.js:19 | an empty result array gives null, which is how `!payload.result.length>0` reads |
| `Background.FormatSalesMapsInOrder` | extension/entrypoints/background/index.js:24-28 | a successful payload maps element i to {sales_date: date, sku: prodSkuId, sales_number: salesNumber}, with missing fields undefined |
| `Background.StringResultThrows` | extension/entrypoints/background/index.js:19-24 | a non-empty string result passes the guard and then `result.map` throws |
| `Background.FormatInventoryData` | extension/entrypoints/background/index.js:36-43 | the inventory formatter returns null for every payload |
| `Background.Endpoint` | extension/entrypoints/background/index.js:52-60 | daily sales go to the configured sales endpoint; the inventory endpoint is undefined |
| `Background.OptionalEndpoint` | extension/entrypoints/background/index.js:59 | optional chaining yields an endpoint exactly when the configuration has an entry for the path |
| `Background.SendToBackend` | extension/entrypoints/background/index.js:74-82 | data is posted exactly when the endpoint is a non-empty string and the data is a non-empty array, and then to that endpoint with that data; a falsy endpoint is refused before the data is looked at |
| `Background.LookupAsWritten` | extension/entrypoints/background/index.js:109 | plain indexing of the processor map finds the two declared types, and also every Object.prototype member name |
| `Background.LookupProcessor` | extension/entrypoints/background/index.js:52-62 | exactly DAILY_SALES and INVENTORY_LEVELS have processors |
| `Background.SuccessReply` | extension/entrypoints/background/index.js:114 | the success reply has status success and names the data type it answers |
| `Background.ErrorReply` | extension/entrypoints/background/index.js:117 | the error reply has status error and ends with the data type it refuses |
| `Background.Dispatch` | extension/entrypoints/background/index.js:109-118 | a found processor gives a success reply whatever its formatter returns, together with the sendToBackend decision, unless the formatter throws; nothing found gives the error reply; an inherited member throws |
| `Background.OnMessageAsWritten` | extension/entrypoints/background/index.js:103-121 | messages whose type is not 'FROM_CONTENT' are not handled; the others are dispatched on the as-written lookup |
| `Background.OnMessage` | extension/entrypoints/background/index.js:103-121 | messages whose type is not 'FROM_CONTENT' are not handled; an unknown data type gets the error reply and nothing is sent; a known one is dispatched to its processor |
| `Background.InheritedNameThrows` | extension/entrypoints/background/index.js:109-118 | the data type 'toString' makes the listener as written throw without a reply, while the intended listener replies with the error |
| `Background.AsWrittenAgreesOffPrototype` | extension/entrypoints/background/index.js:109 | the two listeners agree on every data type that is not an Object.prototype name |
| `Background.InventoryNeverSent` | extension/entrypoints/background/index.js:57-60 | an inventory message is answered with success, and nothing is sent because its endpoint is undefined |
| `Background.DailySalesPostedIffRecords` | extension/entrypoints/background/index.js:109-114 | a daily-sales message throws exactly when the formatter throws; a null result is still answered with success and not sent; records are posted to the sales endpoint |

## Findings

| source | as written | input that shows it | evidently intended | confidence | as-written member | corrected member |
|---|---|---|---|---|---|---|
| extension/entrypoints/background/index.js:109-118 | `dataProcessorMap[dataType]` indexes an object literal, so a data type that names an Object.prototype member finds that member. The member is truthy and has no `formatter`, so the call throws and no reply is sent | a message `{type: 'FROM_CONTENT', dataType: 'toString'}` | every data type without a declared processor gets the error reply `未知的dataType: …` (lines 115-117) | medium: the content script forwards whatever data type a page posts; not executed | `Background.OnMessageAsWritten` (shown by `Background.InheritedNameThrows`) | `Background.OnMessage` |

## Left out

- HTTP framing (Gin) is abstracted away. Request inputs become parameters:
  - the multipart file and the workbook reading become `SheetSource`;
  - JSON binding becomes `BindResult`;
  - the path parameter becomes a string.

  Replies become datatypes with their status code and message text.
- Excel decoding (excelize) is not modelled. A sheet is the `seq<seq<string>>`
  of the first sheet's rows. excelize's `GetRows` drops the blank cells at the
  end of each row, so "12 cells" is not "12 columns": a product row whose last
  columns (BarCode, or everything after some cell) are blank reaches the
  `len(row) < 12` guard (server/handler/product_handler.go:87) with fewer
  cells and is skipped. The model admits rows ending in empty cells, which
  excelize never produces.
- GORM and MySQL internals are treated as follows:
  - `RowsAffected` is an opaque parameter.
  - A storage error is a parameter, and an error leaves the table unchanged.
  - Keys compare as exact strings. The database collation, which may fold
    case or trailing spaces, is not modelled.
  - Over-long values for `varchar(20)` / `varchar(255)` are not modelled. The
    database reports them as storage errors.
  - New rows take consecutive ids. Gaps that auto-increment may leave after a
    conflict are not modelled.
- Fields that a JSON body could bind beyond `sales_date`, `sku` and
  `sales_number` are not modelled. These are `ID`, `CreatedAt` and `UpdatedAt`,
  which GORM would then store.
- Product timestamps are not modelled. The handler's record names none. The
  `CreatedAt` / `UpdatedAt` of server/model/product.go belong to the
  mismatched struct.
- Strconv.ParseInt64: in Go, text whose digits overflow 64 bits before a later
  non-digit character returns the saturated bound. The model returns 0 for such
  text, as it does for all text that is not signed decimal.
- The background script's values are simplified:
  - JavaScript numbers are modelled as integers. There is no NaN and no
    fractions.
  - Property access covers only own fields and `length`.
  - `dataType` is a string. JavaScript's conversion of other values to
    property keys is not modelled.
- The `fetch` in `sendToBackend` is not modelled: neither its response nor its
  caught errors. Logging (`log.Printf`, `console.*`) and the listener's
  `return true` are not modelled either.
- `GetProducts` returns the stored rows as a map. The order in which the
  database returns them is not modelled.
- The following files are not part of this model: server/model/daily_sale.go
  (JSON column wrappers), server/database/database.go, server/main.go,
  server/router/router.go, the fetch interceptor and the content scripts.
  Two wiring facts of the route table are therefore not modelled:
  - it registers only `/api/v1/sales/daily-sku`, while the extension's
    configuration posts to `/api/v1/data/sales`;
  - it registers no product route, so the product handlers
    (`UploadProducts`, `DeleteProduct`, `GetProducts`) are modelled as
    handlers, not as reachable endpoints.
- Concurrency between requests is not modelled. It is resolved by the
  database.
