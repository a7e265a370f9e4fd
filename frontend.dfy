/** The API-first front-end (`GELPK_frontend/js/script.js`): its type tables, the
    classification of HTTP answers in `apiRequest`, and the checks and arithmetic its
    forms run before calling the API of `Backend`. */
module Frontend {
  import opened Common
  import Backend
  import Models

  // ---------------------------------------------------------------------------
  // getLabel and getEndpoint
  // ---------------------------------------------------------------------------

  /** The keys both lookup tables know. */
  predicate IsKnownType(t: string) {
    t == "category" || t == "product" || t == "client" || t == "supplier"
  }

  /** The collections the backend serves under `/api`. */
  predicate IsBackendCollection(e: string) {
    e == "categories" || e == "products" || e == "clients" || e == "suppliers"
  }

  /** `labels[type] || 'item'`. */
  function GetLabel(t: string): (name: string)
    ensures name != ""
    ensures IsKnownType(t) <==> name != "item"
    ensures t == "supplier" ==> name == "Fornecedor"
  {
    match t
    case "category" => "Categoria"
    case "product" => "Produto"
    case "client" => "Cliente"
    case "supplier" => "Fornecedor"
    case _ => "item"
  }

  /** `endpoints[type] || type`: a known type names a backend collection, any other
      type is passed through unchanged. */
  function GetEndpoint(t: string): (e: string)
    ensures IsKnownType(t) ==> IsBackendCollection(e) && e != t
    ensures !IsKnownType(t) ==> e == t
  {
    match t
    case "category" => "categories"
    case "product" => "products"
    case "client" => "clients"
    case "supplier" => "suppliers"
    case _ => t
  }

  /** Mapping an endpoint again changes nothing: no collection name is itself a type key. */
  lemma GetEndpointIdempotent(t: string)
    ensures GetEndpoint(GetEndpoint(t)) == GetEndpoint(t)
  {
    if IsKnownType(t) {
      assert !IsKnownType(GetEndpoint(t));
    }
  }

  /** Distinct known types reach distinct collections. */
  lemma GetEndpointInjective(t1: string, t2: string)
    requires IsKnownType(t1) && IsKnownType(t2) && t1 != t2
    ensures GetEndpoint(t1) != GetEndpoint(t2)
  {
  }

  /** The two tables agree on what they know: a type gets a real label exactly when it
      gets a collection of its own. */
  lemma LabelIffEndpoint(t: string)
    ensures GetLabel(t) != "item" <==> GetEndpoint(t) != t
  {
  }

  // ---------------------------------------------------------------------------
  // apiRequest
  // ---------------------------------------------------------------------------

  /** An HTTP answer: the status, the body as `response.json()` reads it (`Err` when it
      is not JSON) and the status text. */
  datatype HttpReply<T> = HttpReply(status: int, body: Result<T, string>, statusText: string)

  /** What `apiRequest` resolves to, or the message of the error it throws. */
  datatype ApiOutcome<T> = ApiSuccess | ApiData(data: T) | ApiError(message: string)

  predicate IsOk(status: int) {
    200 <= status <= 299
  }

  /** `messageOf(body)` is the body's `message` field, "" when it has none. */
  function ApiRequest<T>(r: HttpReply<T>, messageOf: T -> string): (out: ApiOutcome<T>)
    ensures out == ApiSuccess <==> r.status == 204
    ensures out.ApiData? <==> r.status != 204 && r.body.Ok? && IsOk(r.status)
    ensures out.ApiData? ==> out.data == r.body.value
    ensures out.ApiError? && r.body.Err? ==> out.message == r.body.error
    ensures out.ApiError? && r.body.Ok? ==>
      out.message == (if messageOf(r.body.value) != "" then messageOf(r.body.value) else r.statusText)
  {
    if r.status == 204 then ApiSuccess
    else match r.body
      case Err(e) => ApiError(e)
      case Ok(data) =>
        if !IsOk(r.status) then
          ApiError(if messageOf(data) != "" then messageOf(data) else r.statusText)
        else ApiData(data)
  }

  /** The JSON bodies the sale and write routes send: an optional id and a message
      ("" when absent). */
  datatype JsonBody = JsonBody(id: Option<nat>, message: string)

  function MessageOf(): JsonBody -> string {
    (b: JsonBody) => b.message
  }

  function ReasonPhrase(status: int): string {
    match status
    case 200 => "OK"
    case 201 => "Created"
    case 204 => "No Content"
    case 400 => "Bad Request"
    case 404 => "Not Found"
    case _ => "Internal Server Error"
  }

  /** The answer `POST /api/sales` sends for a reply of `Backend.SqlStore.RegisterSale`. */
  function SaleHttp(reply: Backend.SaleReply): HttpReply<JsonBody> {
    var status := Backend.SaleStatus(reply);
    match reply
    case BadRequest(m) => HttpReply(status, Ok(JsonBody(None, m)), ReasonPhrase(status))
    case ServerError(m) => HttpReply(status, Ok(JsonBody(None, m)), ReasonPhrase(status))
    case Created(id) => HttpReply(status, Ok(JsonBody(Some(id), "Venda registrada com sucesso!")), ReasonPhrase(status))
  }

  /** A sale the backend refuses reaches the form as an error carrying the backend's own
      message; a created sale reaches it as data with the new id. */
  lemma SaleReplyReachesForm(reply: Backend.SaleReply)
    ensures reply.Created? <==> ApiRequest(SaleHttp(reply), MessageOf()).ApiData?
    ensures reply.Created? ==> ApiRequest(SaleHttp(reply), MessageOf()).data.id == Some(reply.id)
    ensures !reply.Created? && reply.message != "" ==> ApiRequest(SaleHttp(reply), MessageOf()) == ApiError(reply.message)
  {
  }

  /** The answer an update or delete route sends: the echoed row on 200, no body on 204,
      the not-found message on 404. */
  function WriteHttp(reply: Backend.WriteReply): HttpReply<JsonBody> {
    var status := Backend.WriteStatus(reply);
    match reply
    case Updated(id) => HttpReply(status, Ok(JsonBody(Some(id), "")), ReasonPhrase(status))
    case Deleted => HttpReply(status, Err("Unexpected end of JSON input"), ReasonPhrase(status))
    case NotFound(m) => HttpReply(status, Ok(JsonBody(None, m)), ReasonPhrase(status))
  }

  /** A delete that found its row resolves (the empty 204 body is never read); a missing
      row surfaces the route's not-found message. */
  lemma WriteReplyReachesForm(reply: Backend.WriteReply)
    ensures reply.Deleted? <==> ApiRequest(WriteHttp(reply), MessageOf()) == ApiSuccess
    ensures reply.Updated? <==> ApiRequest(WriteHttp(reply), MessageOf()).ApiData?
    ensures reply.NotFound? && reply.message != "" ==> ApiRequest(WriteHttp(reply), MessageOf()) == ApiError(reply.message)
  {
  }

  // ---------------------------------------------------------------------------
  // openAddModal: the save
  // ---------------------------------------------------------------------------

  datatype HttpMethod = Post | Put

  datatype ApiCall = ApiCall(verb: HttpMethod, path: string)

  /** The decimal text of a natural number, as a template literal writes an id. */
  function Decimal(n: nat): (s: string)
    ensures |s| > 0 && Models.AllDigits(s)
  {
    if n < 10 then [Models.DigitChar(n)] else Decimal(n / 10) + [Models.DigitChar(n % 10)]
  }

  /** The value a decimal text denotes. */
  function ValueOf(s: string): nat
    requires Models.AllDigits(s)
  {
    if s == [] then 0 else 10 * ValueOf(s[..|s| - 1]) + Models.DigitValue(s[|s| - 1])
  }

  /** The id in the path reads back as the item's id. */
  lemma {:induction false} DecimalRoundTrip(n: nat)
    ensures ValueOf(Decimal(n)) == n
  {
    if n >= 10 {
      DecimalRoundTrip(n / 10);
      var s := Decimal(n);
      assert s[..|s| - 1] == Decimal(n / 10);
    }
  }

  /** The request the save makes, or `None` when `!data.name` stops it: an edit
      (`editId` given) is a PUT to the item's path, a new item a POST to the collection. */
  function SaveRequest(t: string, editId: Option<nat>, name: string): (r: Option<ApiCall>)
    ensures r.None? <==> name == ""
    ensures r.Some? ==> (r.value.verb == Put <==> editId.Some?)
    ensures r.Some? && editId.None? ==> r.value.path == "/" + GetEndpoint(t)
    ensures r.Some? && editId.Some? ==>
      var prefix := "/" + GetEndpoint(t) + "/";
      && |r.value.path| > |prefix|
      && r.value.path[..|prefix|] == prefix
      && Models.AllDigits(r.value.path[|prefix|..])
      && ValueOf(r.value.path[|prefix|..]) == editId.value
  {
    if name == "" then None
    else if editId.None? then Some(ApiCall(Post, "/" + GetEndpoint(t)))
    else
      var prefix := "/" + GetEndpoint(t) + "/";
      var digits := Decimal(editId.value);
      DecimalRoundTrip(editId.value);
      assert (prefix + digits)[|prefix|..] == digits;
      Some(ApiCall(Put, prefix + digits))
  }

  /** The form's check is weaker than the model's: a name of blanks passes it, though
      `Categoria.validate` rejects the same name. */
  lemma BlankNamePassesForm(t: string, editId: Option<nat>)
    ensures SaveRequest(t, editId, " ").Some?
    ensures Models.CategoriaErrors(Models.Categoria(None, Some(" "), None)) == [Models.CategoriaNomeRequired]
  {
    assert TrimStart(" ") == "";
  }

  // ---------------------------------------------------------------------------
  // Stock edit and stock entry
  // ---------------------------------------------------------------------------

  /** `openStockEditModal`: an empty field (`None`) or a negative value is refused;
      otherwise that exact value is the quantity sent. */
  function StockEditGate(raw: Option<int>): (sent: Option<int>)
    ensures sent.None? <==> raw.None? || raw.value < 0
    ensures sent.Some? ==> sent == raw && sent.value >= 0
  {
    if raw.None? || raw.value < 0 then None else raw
  }

  /** An accepted edit, applied by `PUT /api/stock/:productId`, leaves the product's row
      with the entered quantity, never negative. */
  lemma StockEditStored(stock: map<Backend.ProductId, Backend.StockRow>, p: Backend.ProductId, raw: Option<int>, now: Instant)
    requires StockEditGate(raw).Some?
    ensures var after := Backend.Upsert(stock, p, StockEditGate(raw).value, now);
      p in after && after[p].quantity == raw.value && after[p].quantity >= 0
  {
  }

  function ListedProductIs(p: Backend.ProductId): Backend.StockListingRow -> bool {
    (r: Backend.StockListingRow) => r.productId == p
  }

  /** `currentStock ? currentStock.quantity : 0` over the rows of `GET /api/stock`. */
  function ListedQuantity(rows: seq<Backend.StockListingRow>, p: Backend.ProductId): (q: int)
    ensures (forall i :: 0 <= i < |rows| ==> rows[i].productId != p) ==> q == 0
    ensures q != 0 ==> exists i :: 0 <= i < |rows| && rows[i].productId == p && rows[i].quantity == q
  {
    match FindFirst(rows, ListedProductIs(p))
    case None => 0
    case Some(i) => rows[i].quantity
  }

  /** `openNewStockEntryModal`: refused when no product is selected (`None`) or the
      quantity is 0 or less; otherwise the new total is the listed quantity plus the
      added amount. */
  function StockEntryTotal(productId: Option<Backend.ProductId>, add: int, rows: seq<Backend.StockListingRow>)
    : (total: Option<int>)
    ensures total.None? <==> productId.None? || add <= 0
    ensures total.Some? ==> total.value == ListedQuantity(rows, productId.value) + add
    ensures total.Some? && FindFirst(rows, ListedProductIs(productId.value)).None? ==> total.value == add
  {
    if productId.None? || add <= 0 then None
    else Some(ListedQuantity(rows, productId.value) + add)
  }

  /** The listing tells the product's stock: its row's quantity, or 0 without a row. */
  lemma ListedQuantityIsStock(rows: seq<Backend.StockListingRow>, stock: map<Backend.ProductId, Backend.StockRow>,
                              products: map<Backend.ProductId, Backend.ProductRow>, p: Backend.ProductId)
    requires Backend.IsStockListing(rows, stock, products) && p in products
    ensures ListedQuantity(rows, p) == if p in stock then stock[p].quantity else 0
  {
    if p in stock {
      var i :| 0 <= i < |rows| && rows[i].productId == p;
      assert ListedProductIs(p)(rows[i]);
    }
  }

  /** An accepted entry, sent with `PUT /api/stock/:productId`, raises the product's
      stock by exactly the added amount (starting from 0 without a row). */
  lemma StockEntryStored(rows: seq<Backend.StockListingRow>, stock: map<Backend.ProductId, Backend.StockRow>,
                         products: map<Backend.ProductId, Backend.ProductRow>, p: Backend.ProductId, add: int, now: Instant)
    requires Backend.IsStockListing(rows, stock, products) && p in products && add > 0
    ensures StockEntryTotal(Some(p), add, rows).Some?
    ensures var after := Backend.Upsert(stock, p, StockEntryTotal(Some(p), add, rows).value, now);
      p in after && after[p].quantity == (if p in stock then stock[p].quantity else 0) + add
  {
    ListedQuantityIsStock(rows, stock, products, p);
  }

  // ---------------------------------------------------------------------------
  // The sale form
  // ---------------------------------------------------------------------------

  /** The `total += qty * price` total over the item rows of the form. */
  function RowsTotal(rows: seq<Backend.SaleItemRequest>): Cents {
    if rows == [] then 0
    else RowsTotal(rows[..|rows| - 1]) + rows[|rows| - 1].quantity * rows[|rows| - 1].unitPrice
  }

  /** `calculateTotal`. */
  method CalculateTotal(rows: seq<Backend.SaleItemRequest>) returns (total: Cents)
    ensures total == RowsTotal(rows)
  {
    total := 0;
    for k := 0 to |rows|
      invariant total == RowsTotal(rows[..k])
    {
      assert rows[..k + 1][..k] == rows[..k];
      total := total + rows[k].quantity * rows[k].unitPrice;
    }
    assert rows[..|rows|] == rows;
  }

  /** The request the sale form sends, or `None` when it has no item rows. */
  function SaleRequestFor(clientId: Option<nat>, rows: seq<Backend.SaleItemRequest>): (req: Option<Backend.SaleRequest>)
    ensures req.None? <==> rows == []
    ensures req.Some? ==> Backend.HasItems(req.value) && req.value.items == Some(rows)
  {
    if rows == [] then None else Some(Backend.SaleRequest(clientId, Some(rows), RowsTotal(rows)))
  }

  /** The save handler: the total from `calculateTotal`, one pushed item per row in row
      order, and the empty-sale check before any request. */
  method BuildSaleRequest(clientId: Option<nat>, rows: seq<Backend.SaleItemRequest>) returns (req: Option<Backend.SaleRequest>)
    ensures req == SaleRequestFor(clientId, rows)
  {
    var total := CalculateTotal(rows);
    var items: seq<Backend.SaleItemRequest> := [];
    for k := 0 to |rows|
      invariant items == rows[..k]
    {
      items := items + [rows[k]];
    }
    assert items == rows;
    if |items| == 0 {
      return None;
    }
    return Some(Backend.SaleRequest(clientId, Some(items), total));
  }

  /** The amount of stored line items. */
  function LinesTotal(lines: seq<Backend.SaleItemRow>): Cents {
    if lines == [] then 0
    else LinesTotal(lines[..|lines| - 1]) + lines[|lines| - 1].quantity * lines[|lines| - 1].unitPrice
  }

  lemma {:induction false} LinesTotalOfRows(rows: seq<Backend.SaleItemRequest>, id: Backend.SaleId)
    ensures LinesTotal(Backend.LineItems(rows, id)) == RowsTotal(rows)
  {
    if rows != [] {
      var lines := Backend.LineItems(rows, id);
      assert lines[..|lines| - 1] == Backend.LineItems(rows[..|rows| - 1], id);
      LinesTotalOfRows(rows[..|rows| - 1], id);
    }
  }

  /** The backend stores the caller's total as given; for a sale sent by this form that
      total is the amount of the line items stored with it. */
  lemma FormSaleTotalMatchesItems(t: Backend.SaleTables, clientId: Option<nat>, rows: seq<Backend.SaleItemRequest>,
                                  id: Backend.SaleId, now: Instant)
    requires rows != []
    ensures var req := SaleRequestFor(clientId, rows).value;
      var after := Backend.CommitSale(t, req, id, now);
      && id in after.sales
      && after.saleItems[|t.saleItems|..] == Backend.LineItems(rows, id)
      && after.sales[id].totalAmount == LinesTotal(after.saleItems[|t.saleItems|..])
  {
    var req := SaleRequestFor(clientId, rows).value;
    var after := Backend.CommitSale(t, req, id, now);
    assert after.saleItems[|t.saleItems|..] == Backend.LineItems(rows, id);
    LinesTotalOfRows(rows, id);
  }
}
