/** The extension's background script (extension/entrypoints/background/index.js):
    it turns a captured marketplace API payload into the records the server
    ingests, picks the processor for the message's data type, decides whether
    anything is posted to the backend, and answers the content script. */
module Background {
  import opened Options

  /** The JavaScript values a captured JSON payload can hold.  `Undefined` stands
      for a missing property.  Numbers are modelled as integers. */
  datatype JsValue =
    | Undefined
    | Null
    | Bool(b: bool)
    | Number(n: int)
    | Str(s: string)
    | Array(items: seq<JsValue>)
    | Object(fields: map<string, JsValue>)

  /** JavaScript truthiness. */
  predicate Truthy(v: JsValue) {
    match v
    case Undefined => false
    case Null => false
    case Bool(b) => b
    case Number(n) => n != 0
    case Str(s) => s != ""
    case _ => true
  }

  /** Property access `v.key`; None is the TypeError thrown on undefined and null.
      Only the properties the script reads are modelled: an object's own
      fields, and `length` of arrays and strings. */
  function GetProperty(v: JsValue, key: string): (r: Option<JsValue>)
    ensures r.None? <==> v.Undefined? || v.Null?
    ensures v.Object? ==> r == Some(if key in v.fields then v.fields[key] else Undefined)
  {
    match v
    case Undefined => None
    case Null => None
    case Object(fields) => Some(if key in fields then fields[key] else Undefined)
    case Array(items) => Some(if key == "length" then Number(|items|) else Undefined)
    case Str(s) => Some(if key == "length" then Number(|s|) else Undefined)
    case _ => Some(Undefined)
  }

  /** Property access on a truthy value, which never throws. */
  function Get(v: JsValue, key: string): JsValue
    requires Truthy(v)
  {
    GetProperty(v, key).value
  }

  /** One record for the server: `{sales_date, sku, sales_number}`. */
  datatype SaleRecord = SaleRecord(salesDate: JsValue, sku: JsValue, salesNumber: JsValue)

  /** What a formatter produces: `null`, an array of records, or a thrown TypeError. */
  datatype Formatted = NullData | Records(records: seq<SaleRecord>) | Thrown

  /** The mapping of one element of `payload.result`; None when the element is
      null or undefined, where reading `item.date` throws. */
  function ItemToRecord(item: JsValue): (r: Option<SaleRecord>)
    ensures r.Some? <==> !(item.Undefined? || item.Null?)
  {
    if item.Undefined? || item.Null? then None
    else Some(SaleRecord(GetProperty(item, "date").value, GetProperty(item, "prodSkuId").value,
                         GetProperty(item, "salesNumber").value))
  }

  predicate Readable(item: JsValue) {
    !(item.Undefined? || item.Null?)
  }

  /** `formatSalesData`.  The guard `!payload.result.length>0` parses as
      `(!payload.result.length) > 0`, which holds exactly when the length is
      falsy (missing or zero).  Past the guard, `result.map` throws unless
      `result` is an array, and reading a field of a null element throws. */
  function FormatSalesData(payload: JsValue): (r: Formatted)
    ensures r.Records? <==>
      && payload.Object? && "result" in payload.fields && payload.fields["result"].Array?
      && |payload.fields["result"].items| > 0
      && "success" in payload.fields && Truthy(payload.fields["success"])
      && forall i :: 0 <= i < |payload.fields["result"].items| ==> Readable(payload.fields["result"].items[i])
    ensures r.Records? ==>
      var items := payload.fields["result"].items;
      && |r.records| == |items|
      && forall i :: 0 <= i < |items| ==> Some(r.records[i]) == ItemToRecord(items[i])
    ensures r.Records? ==> r.records != []
  {
    if !Truthy(payload) then NullData
    else
      var result := Get(payload, "result");
      if !Truthy(result) then NullData
      else if !Truthy(Get(result, "length")) then NullData
      else if !Truthy(Get(payload, "success")) then NullData
      else if !result.Array? then Thrown
      else if exists i :: 0 <= i < |result.items| && !Readable(result.items[i]) then Thrown
      else Records(seq(|result.items|, i requires 0 <= i < |result.items| => ItemToRecord(result.items[i]).value))
  }

  /** `formatInventoryData`: a placeholder that returns `null` for every payload. */
  function FormatInventoryData(payload: JsValue): (r: Formatted)
    ensures r == NullData
  {
    NullData
  }

  /** The payload is refused (null) exactly when it is falsy, its `result` is
      falsy, that result's `length` is falsy, or its `success` is falsy. */
  lemma FormatSalesNullIff(payload: JsValue)
    ensures FormatSalesData(payload) == NullData <==>
      || !Truthy(payload)
      || !Truthy(Get(payload, "result"))
      || !Truthy(Get(Get(payload, "result"), "length"))
      || !Truthy(Get(payload, "success"))
  {
  }

  /** An empty result array is refused, whatever `success` says. */
  lemma EmptyResultIsNull(fields: map<string, JsValue>)
    requires "result" in fields && fields["result"] == Array([])
    ensures FormatSalesData(Object(fields)) == NullData
  {
  }

  /** A well-formed payload maps element by element, in order, onto records. */
  lemma FormatSalesMapsInOrder(items: seq<map<string, JsValue>>)
    requires |items| > 0
    ensures var payload := Object(map["success" := Bool(true), "result" := Array(seq(|items|, i requires 0 <= i < |items| => Object(items[i])))]);
      && FormatSalesData(payload).Records?
      && |FormatSalesData(payload).records| == |items|
      && forall i :: 0 <= i < |items| ==>
           FormatSalesData(payload).records[i] ==
             SaleRecord(if "date" in items[i] then items[i]["date"] else Undefined,
                        if "prodSkuId" in items[i] then items[i]["prodSkuId"] else Undefined,
                        if "salesNumber" in items[i] then items[i]["salesNumber"] else Undefined)
  {
  }

  /** A non-empty string in `result` passes the guard and then `result.map` throws. */
  lemma StringResultThrows(text: string)
    requires text != ""
    ensures FormatSalesData(Object(map["result" := Str(text), "success" := Bool(true)])) == Thrown
  {
  }

  /** The entries of extension/api-config.js: captured API path to data type and
      backend endpoint.  The stock-level entry is commented out there. */
  datatype ApiEntry = ApiEntry(dataType: string, backendEndpoint: string)

  const SalesApiPath: string := "/mms/venom/api/supplier/sales/management/querySkuSalesNumber"
  const StockApiPath: string := "/mms/venom/api/supplier/stock/management/queryStock"
  const SalesEndpoint: string := "http://localhost:8080/api/v1/data/sales"

  const ApiHandlerMap: map<string, ApiEntry> := map[SalesApiPath := ApiEntry("DAILY_SALES", SalesEndpoint)]

  /** The processors of `dataProcessorMap`. */
  datatype DataKind = DailySales | InventoryLevels

  function Formatter(kind: DataKind, payload: JsValue): Formatted {
    match kind
    case DailySales => FormatSalesData(payload)
    case InventoryLevels => FormatInventoryData(payload)
  }

  /** `getEndpoint()`: the sales entry is read directly; the stock entry through
      optional chaining, so its absence gives `undefined` (None). */
  function Endpoint(kind: DataKind): (e: Option<string>)
    ensures kind == DailySales ==> e == Some(SalesEndpoint)
    ensures kind == InventoryLevels ==> e == None
  {
    match kind
    case DailySales => Some(ApiHandlerMap[SalesApiPath].backendEndpoint)
    case InventoryLevels => OptionalEndpoint(StockApiPath)
  }

  /** `ApiHandlerMap[path]?.backendEndpoint`. */
  function OptionalEndpoint(path: string): (e: Option<string>)
    ensures e.Some? <==> path in ApiHandlerMap
  {
    if path in ApiHandlerMap then Some(ApiHandlerMap[path].backendEndpoint) else None
  }

  /** What `sendToBackend` does with its arguments. */
  datatype SendDecision = NoEndpoint | NothingToSend | Post(endpoint: string, records: seq<SaleRecord>)

  /** The guards of `sendToBackend`: a falsy endpoint is refused first, then
      null or empty data; only then is the data posted.  The fetch and its
      outcome are not modelled. */
  function SendToBackend(endpoint: Option<string>, data: Formatted): (d: SendDecision)
    requires !data.Thrown?
    ensures d.Post? <==> endpoint.Some? && endpoint.value != "" && data.Records? && data.records != []
    ensures d.Post? ==> d.endpoint == endpoint.value && d.records == data.records
    ensures (endpoint.None? || endpoint.value == "") ==> d == NoEndpoint
  {
    if endpoint.None? || endpoint.value == "" then NoEndpoint
    else if data.NullData? || data.records == [] then NothingToSend
    else Post(endpoint.value, data.records)
  }

  /** A message from the content script. */
  datatype Message = Message(msgType: JsValue, dataType: string, payload: JsValue)

  /** The reply given through `sendResponse`: status 'success' or 'error'. */
  datatype Reply = Reply(success: bool, message: string)

  /** What the listener does with a message: nothing, a reply (with the decision
      of `sendToBackend` when a processor ran), or an uncaught TypeError. */
  datatype ListenerOutcome = NotHandled | Answered(reply: Reply, send: Option<SendDecision>) | Threw

  /** The result of `dataProcessorMap[dataType]`: an own entry, a member
      inherited from Object.prototype (truthy, but without a `formatter`), or
      `undefined`. */
  datatype Lookup = Own(kind: DataKind) | Inherited | Absent

  /** The names every object literal inherits from Object.prototype. */
  const ObjectPrototypeNames: set<string> := {
    "constructor", "hasOwnProperty", "isPrototypeOf", "propertyIsEnumerable",
    "toLocaleString", "toString", "valueOf", "__proto__",
    "__defineGetter__", "__defineSetter__", "__lookupGetter__", "__lookupSetter__"}

  /** The lookup as the script writes it: plain indexing of an object literal. */
  function LookupAsWritten(dataType: string): (l: Lookup)
    ensures l.Inherited? <==> dataType in ObjectPrototypeNames
    ensures l.Own? <==> dataType == "DAILY_SALES" || dataType == "INVENTORY_LEVELS"
  {
    if dataType == "DAILY_SALES" then Own(DailySales)
    else if dataType == "INVENTORY_LEVELS" then Own(InventoryLevels)
    else if dataType in ObjectPrototypeNames then Inherited
    else Absent
  }

  /** The lookup as intended: only the two declared data types have a processor. */
  function LookupProcessor(dataType: string): (k: Option<DataKind>)
    ensures k == Some(DailySales) <==> dataType == "DAILY_SALES"
    ensures k == Some(InventoryLevels) <==> dataType == "INVENTORY_LEVELS"
  {
    if dataType == "DAILY_SALES" then Some(DailySales)
    else if dataType == "INVENTORY_LEVELS" then Some(InventoryLevels)
    else None
  }

  /** The success reply names the data type it answers. */
  function SuccessReply(dataType: string): (r: Reply)
    ensures r.success
    ensures 8 + |dataType| < |r.message| && r.message[8..8 + |dataType|] == dataType
  {
    Reply(true, "数据 (类型: " + dataType + ") 已被后台处理。")
  }

  /** The error reply ends with the data type it refuses. */
  function ErrorReply(dataType: string): (r: Reply)
    ensures !r.success
    ensures |dataType| < |r.message| && r.message[|r.message| - |dataType|..] == dataType
  {
    Reply(false, "未知的dataType: " + dataType)
  }

  /** The body of the listener once a lookup result is known: a processor formats
      the payload, the endpoint is fetched, `sendToBackend` is started and a
      success reply is sent, whatever the formatter returned; an inherited member
      has no `formatter`, so calling it throws; nothing found gives an error reply. */
  function Dispatch(found: Lookup, dataType: string, payload: JsValue): (r: ListenerOutcome)
    ensures found.Absent? ==> r == Answered(ErrorReply(dataType), None)
    ensures found.Inherited? ==> r == Threw
    ensures found.Own? ==> (r.Threw? <==> Formatter(found.kind, payload).Thrown?)
    ensures found.Own? && !r.Threw? ==> r == Answered(SuccessReply(dataType),
                                          Some(SendToBackend(Endpoint(found.kind), Formatter(found.kind, payload))))
  {
    match found
    case Own(kind) =>
      var data := Formatter(kind, payload);
      if data.Thrown? then Threw
      else Answered(SuccessReply(dataType), Some(SendToBackend(Endpoint(kind), data)))
    case Inherited => Threw
    case Absent => Answered(ErrorReply(dataType), None)
  }

  predicate FromContent(msg: Message) {
    msg.msgType == Str("FROM_CONTENT")
  }

  /** The message listener as written. */
  function OnMessageAsWritten(msg: Message): (r: ListenerOutcome)
    ensures !FromContent(msg) ==> r == NotHandled
    ensures FromContent(msg) ==> r == Dispatch(LookupAsWritten(msg.dataType), msg.dataType, msg.payload)
  {
    if !FromContent(msg) then NotHandled
    else Dispatch(LookupAsWritten(msg.dataType), msg.dataType, msg.payload)
  }

  /** The message listener with the intended lookup: every data type without a
      processor of its own gets the error reply. */
  function OnMessage(msg: Message): (r: ListenerOutcome)
    ensures !FromContent(msg) ==> r == NotHandled
    ensures FromContent(msg) && LookupProcessor(msg.dataType).None? ==>
              r == Answered(ErrorReply(msg.dataType), None)
    ensures FromContent(msg) && LookupProcessor(msg.dataType).Some? ==>
              r == Dispatch(Own(LookupProcessor(msg.dataType).value), msg.dataType, msg.payload)
  {
    if !FromContent(msg) then NotHandled
    else match LookupProcessor(msg.dataType)
      case Some(kind) => Dispatch(Own(kind), msg.dataType, msg.payload)
      case None => Dispatch(Absent, msg.dataType, msg.payload)
  }

  /** A data type named like a member of Object.prototype finds that member in
      the script as written, and the listener throws instead of replying; the
      intended lookup answers with the error reply. */
  lemma InheritedNameThrows(payload: JsValue)
    ensures OnMessageAsWritten(Message(Str("FROM_CONTENT"), "toString", payload)) == Threw
    ensures OnMessage(Message(Str("FROM_CONTENT"), "toString", payload)) == Answered(ErrorReply("toString"), None)
  {
  }

  /** The two listeners agree on every data type that is not an Object.prototype name. */
  lemma AsWrittenAgreesOffPrototype(msg: Message)
    requires msg.dataType !in ObjectPrototypeNames
    ensures OnMessageAsWritten(msg) == OnMessage(msg)
  {
  }

  /** Inventory messages are answered with success but never sent: the endpoint
      lookup yields undefined. */
  lemma InventoryNeverSent(payload: JsValue)
    ensures OnMessage(Message(Str("FROM_CONTENT"), "INVENTORY_LEVELS", payload))
         == Answered(SuccessReply("INVENTORY_LEVELS"), Some(NoEndpoint))
  {
  }

  /** A daily-sales message is posted to the sales endpoint exactly when the
      formatter yields records; a null result is still answered with success. */
  lemma DailySalesPostedIffRecords(payload: JsValue)
    ensures var r := OnMessage(Message(Str("FROM_CONTENT"), "DAILY_SALES", payload));
      && (r.Threw? <==> FormatSalesData(payload).Thrown?)
      && (FormatSalesData(payload).NullData? ==> r == Answered(SuccessReply("DAILY_SALES"), Some(NothingToSend)))
      && (FormatSalesData(payload).Records? ==>
            r == Answered(SuccessReply("DAILY_SALES"), Some(Post(SalesEndpoint, FormatSalesData(payload).records))))
  {
  }
}
