/** The Express + MySQL server of the web version (`GELPK_backend/server.js`): the
    transactional sale registration, the stock upsert, the sale detail and dashboard
    reads, and the 404 rule of the update and delete routes.

    The tables are maps from primary key to row (`sale_items` is a sequence in insertion
    order). A failing SQL statement is an explicit input: `fault == Some(k)` makes the
    k-th statement of the request fail. The clock (`NOW()`, `new Date()`, `CURDATE()`)
    is a parameter. */
module Backend {
  import opened Common

  type ProductId = nat
  type SaleId = nat

  datatype CategoryRow = CategoryRow(name: string, description: Option<string>)

  datatype ProductRow = ProductRow(
    name: string, description: Option<string>, price: Cents, status: Option<string>,
    categoryId: Option<nat>)

  datatype ClientRow = ClientRow(
    name: string, cpf: Option<string>, email: Option<string>, phone: Option<string>,
    address: Option<string>)

  datatype SupplierRow = SupplierRow(
    name: string, contactName: Option<string>, phone: Option<string>, email: Option<string>)

  /** A row of `stock`; `product_id` is its key. */
  datatype StockRow = StockRow(quantity: int, lastUpdated: Instant)

  datatype SaleRow = SaleRow(saleDate: Instant, totalAmount: Cents, status: string, clientId: Option<nat>)

  datatype SaleItemRow = SaleItemRow(quantity: int, unitPrice: Cents, saleId: SaleId, productId: ProductId)

  // ---------------------------------------------------------------------------
  // JavaScript `x || null` on the values bound to statements
  // ---------------------------------------------------------------------------

  /** `s || null`: the empty string and a missing value both become NULL. */
  function NullIfEmpty(s: Option<string>): (r: Option<string>)
    ensures r.None? <==> s.None? || s.value == ""
    ensures r.Some? ==> r == s
  {
    if s.Some? && s.value == "" then None else s
  }

  /** `id || null`: 0 and a missing id both become NULL. */
  function NullIfZero(id: Option<nat>): (r: Option<nat>)
    ensures r.None? <==> id.None? || id.value == 0
    ensures r.Some? ==> r == id
  {
    if id.Some? && id.value == 0 then None else id
  }

  // ---------------------------------------------------------------------------
  // UPDATE ... WHERE id = ? and DELETE ... WHERE id = ?
  // ---------------------------------------------------------------------------

  /** The table after `UPDATE ... WHERE id = ?`, or `None` when no row matched
      (`affectedRows === 0`, answered with 404). mysql2 reports matched rows, so a
      row rewritten with equal values still counts. */
  function UpdateById<R>(table: map<nat, R>, id: nat, row: R): (r: Option<map<nat, R>>)
    ensures r.None? <==> id !in table
    ensures r.Some? ==> r.value.Keys == table.Keys && r.value[id] == row
    ensures r.Some? ==> forall k :: k in table && k != id ==> r.value[k] == table[k]
  {
    if id in table then Some(table[id := row]) else None
  }

  /** The table after `DELETE ... WHERE id = ?`, or `None` when no row matched. */
  function DeleteById<R>(table: map<nat, R>, id: nat): (r: Option<map<nat, R>>)
    ensures r.None? <==> id !in table
    ensures r.Some? ==> r.value.Keys == table.Keys - {id}
    ensures r.Some? ==> forall k :: k in r.value ==> r.value[k] == table[k]
  {
    if id in table then Some(table - {id}) else None
  }

  /** Deleting a row twice: the second request answers 404. */
  lemma DeleteTwiceNotFound<R>(table: map<nat, R>, id: nat)
    requires id in table
    ensures DeleteById(table, id).Some? && DeleteById(DeleteById(table, id).value, id).None?
  {
  }

  /** What an update or delete route answers: 200 with the echoed id, 204, or 404. */
  datatype WriteReply = Updated(id: nat) | Deleted | NotFound(message: string)

  function WriteStatus(r: WriteReply): nat {
    match r
    case Updated(_) => 200
    case Deleted => 204
    case NotFound(_) => 404
  }

  const CategoryNotFound := "Categoria não encontrada"
  const ProductNotFound := "Produto não encontrado"
  const ClientNotFound := "Cliente não encontrado"
  const SupplierNotFound := "Fornecedor não encontrado"

  // ---------------------------------------------------------------------------
  // POST /api/sales
  // ---------------------------------------------------------------------------

  datatype SaleItemRequest = SaleItemRequest(productId: ProductId, quantity: int, unitPrice: Cents)

  /** The request body; `items` is `None` when the field is absent. */
  datatype SaleRequest = SaleRequest(clientId: Option<nat>, items: Option<seq<SaleItemRequest>>, totalAmount: Cents)

  datatype SaleReply = BadRequest(message: string) | Created(id: SaleId) | ServerError(message: string)

  function SaleStatus(r: SaleReply): nat {
    match r
    case BadRequest(_) => 400
    case Created(_) => 201
    case ServerError(_) => 500
  }

  const EmptySaleMessage := "A venda deve conter pelo menos um item."
  const SaleFailedMessage := "Erro ao registrar a venda."

  /** `!items || items.length === 0` is false. */
  predicate HasItems(req: SaleRequest) {
    req.items.Some? && |req.items.value| > 0
  }

  /** The statements of a sale with n items, numbered in execution order: 0 opens the
      connection and the transaction, 1 inserts the header, 2+2k inserts item k, 3+2k
      decrements its stock, and 2+2n commits. A fault beyond these is never reached. */
  predicate FaultReached(fault: Option<nat>, n: nat) {
    fault.Some? && fault.value <= 2 + 2 * n
  }

  /** The three tables a sale writes. */
  datatype SaleTables = SaleTables(
    stock: map<ProductId, StockRow>, sales: map<SaleId, SaleRow>, saleItems: seq<SaleItemRow>)

  /** The header the sale inserts: the caller's total as given (not recomputed),
      status 'concluida', and the client or NULL. */
  function Header(req: SaleRequest, now: Instant): (h: SaleRow)
    ensures h.totalAmount == req.totalAmount && h.status == "concluida" && h.saleDate == now
    ensures h.clientId == NullIfZero(req.clientId)
  {
    SaleRow(now, req.totalAmount, "concluida", NullIfZero(req.clientId))
  }

  function LineItem(it: SaleItemRequest, saleId: SaleId): SaleItemRow {
    SaleItemRow(it.quantity, it.unitPrice, saleId, it.productId)
  }

  /** One line-item row per request item, in request order, all carrying the sale id. */
  function LineItems(items: seq<SaleItemRequest>, saleId: SaleId): (rows: seq<SaleItemRow>)
    ensures |rows| == |items|
    ensures forall i :: 0 <= i < |items| ==> rows[i] == LineItem(items[i], saleId)
  {
    if items == [] then []
    else LineItems(items[..|items| - 1], saleId) + [LineItem(items[|items| - 1], saleId)]
  }

  /** `UPDATE stock SET quantity = quantity - ? WHERE product_id = ?` for one item:
      only an existing row changes, and nothing bounds the result below. */
  function Decrement(stock: map<ProductId, StockRow>, it: SaleItemRequest): map<ProductId, StockRow> {
    if it.productId in stock
    then stock[it.productId := stock[it.productId].(quantity := stock[it.productId].quantity - it.quantity)]
    else stock
  }

  /** The stock after every item's UPDATE: no row is created or removed. */
  function DecrementAll(stock: map<ProductId, StockRow>, items: seq<SaleItemRequest>): (r: map<ProductId, StockRow>)
    ensures r.Keys == stock.Keys
  {
    if items == [] then stock
    else Decrement(DecrementAll(stock, items[..|items| - 1]), items[|items| - 1])
  }

  /** The total quantity the items request of one product. */
  function QuantityOf(items: seq<SaleItemRequest>, p: ProductId): int {
    if items == [] then 0
    else QuantityOf(items[..|items| - 1], p) + (if items[|items| - 1].productId == p then items[|items| - 1].quantity else 0)
  }

  /** The stock effect of a sale: every existing row of a product decreases by the sum of
      that product's item quantities, without a lower bound; its timestamp is kept; no
      row is created or removed. */
  lemma {:induction false} DecrementAllEffect(stock: map<ProductId, StockRow>, items: seq<SaleItemRequest>)
    ensures forall p :: p in stock ==>
      DecrementAll(stock, items)[p] == StockRow(stock[p].quantity - QuantityOf(items, p), stock[p].lastUpdated)
  {
    if items != [] {
      DecrementAllEffect(stock, items[..|items| - 1]);
    }
  }

  /** The tables after a committed sale with id `id`. */
  function CommitSale(t: SaleTables, req: SaleRequest, id: SaleId, now: Instant): (r: SaleTables)
    requires HasItems(req)
    ensures r.sales.Keys == t.sales.Keys + {id} && r.sales[id] == Header(req, now)
    ensures r.stock.Keys == t.stock.Keys
    ensures |r.saleItems| == |t.saleItems| + |req.items.value| && r.saleItems[..|t.saleItems|] == t.saleItems
  {
    SaleTables(
      DecrementAll(t.stock, req.items.value),
      t.sales[id := Header(req, now)],
      t.saleItems + LineItems(req.items.value, id))
  }

  /** A committed sale adds exactly one sale and one line item per request item after the
      existing ones, and moves stock as `DecrementAllEffect` states. */
  lemma CommitSaleEffect(t: SaleTables, req: SaleRequest, id: SaleId, now: Instant)
    requires HasItems(req) && id !in t.sales
    ensures var t2 := CommitSale(t, req, id, now);
      && t2.sales.Keys == t.sales.Keys + {id}
      && |t2.sales| == |t.sales| + 1
      && t2.sales[id] == SaleRow(now, req.totalAmount, "concluida", NullIfZero(req.clientId))
      && (forall s :: s in t.sales ==> t2.sales[s] == t.sales[s])
      && t2.saleItems[..|t.saleItems|] == t.saleItems
      && |t2.saleItems| == |t.saleItems| + |req.items.value|
      && (forall i :: 0 <= i < |req.items.value| ==>
            t2.saleItems[|t.saleItems| + i] == SaleItemRow(req.items.value[i].quantity,
              req.items.value[i].unitPrice, id, req.items.value[i].productId))
      && t2.stock.Keys == t.stock.Keys
      && (forall p :: p in t.stock ==> t2.stock[p].quantity == t.stock[p].quantity - QuantityOf(req.items.value, p))
  {
    DecrementAllEffect(t.stock, req.items.value);
    var t2 := CommitSale(t, req, id, now);
    assert t2.saleItems[..|t.saleItems|] == t.saleItems;
  }

  /** Nothing keeps stock non-negative: selling 5 of a product with 2 in stock leaves -3. */
  lemma StockCanGoNegative(now: Instant)
    ensures var after := DecrementAll(map[1 := StockRow(2, now)], [SaleItemRequest(1, 5, 100)]);
      1 in after && after[1].quantity == -3
  {
    var items := [SaleItemRequest(1, 5, 100)];
    assert items[..0] == [];
  }

  // ---------------------------------------------------------------------------
  // GET /api/sales/:id
  // ---------------------------------------------------------------------------

  /** An item of the detail: `si.quantity, si.unit_price, p.name AS product_name`. */
  datatype ItemView = ItemView(quantity: int, unitPrice: Cents, productName: string)

  /** `s.id, s.sale_date, s.total_amount, c.name AS client_name` plus the items. */
  datatype SaleDetail = SaleDetail(
    id: SaleId, saleDate: Instant, totalAmount: Cents, clientName: Option<string>,
    items: seq<ItemView>)

  datatype DetailReply = Found(detail: SaleDetail) | DetailNotFound(message: string) | DetailError(message: string)

  const SaleNotFoundMessage := "Venda não encontrada."
  const ServerErrorMessage := "Erro no servidor."

  /** A line item takes part in the inner join with `products` for sale `id`. */
  predicate Joins(row: SaleItemRow, products: map<ProductId, ProductRow>, id: SaleId) {
    row.saleId == id && row.productId in products
  }

  function View(row: SaleItemRow, products: map<ProductId, ProductRow>): ItemView
    requires row.productId in products
  {
    ItemView(row.quantity, row.unitPrice, products[row.productId].name)
  }

  /** `sale_items JOIN products ... WHERE si.sale_id = ?`, in insertion order: exactly the
      items of that sale whose product still exists. */
  function JoinItems(rows: seq<SaleItemRow>, products: map<ProductId, ProductRow>, id: SaleId): (r: seq<ItemView>)
    ensures |r| == CountSeq(rows, (row: SaleItemRow) => Joins(row, products, id))
    ensures forall v :: v in r <==>
      exists i :: 0 <= i < |rows| && Joins(rows[i], products, id) && v == View(rows[i], products)
  {
    if rows == [] then []
    else
      var rest := JoinItems(rows[1..], products, id);
      assert forall i :: 1 <= i < |rows| ==> rows[i] == rows[1..][i - 1];
      if Joins(rows[0], products, id) then [View(rows[0], products)] + rest else rest
  }

  lemma {:induction false} JoinItemsConcat(a: seq<SaleItemRow>, b: seq<SaleItemRow>, products: map<ProductId, ProductRow>, id: SaleId)
    ensures JoinItems(a + b, products, id) == JoinItems(a, products, id) + JoinItems(b, products, id)
  {
    if a == [] {
      assert a + b == b;
    } else {
      assert (a + b)[1..] == a[1..] + b;
      JoinItemsConcat(a[1..], b, products, id);
    }
  }

  /** Rows of other sales contribute nothing to a sale's detail. */
  lemma {:induction false} JoinItemsOtherSales(rows: seq<SaleItemRow>, products: map<ProductId, ProductRow>, id: SaleId)
    requires forall i :: 0 <= i < |rows| ==> rows[i].saleId != id
    ensures JoinItems(rows, products, id) == []
  {
    if rows != [] {
      JoinItemsOtherSales(rows[1..], products, id);
    }
  }

  /** The request items of a sale, as its detail shows them. */
  function RequestViews(items: seq<SaleItemRequest>, products: map<ProductId, ProductRow>): seq<ItemView> {
    if items == [] then []
    else if items[0].productId in products
    then [ItemView(items[0].quantity, items[0].unitPrice, products[items[0].productId].name)] + RequestViews(items[1..], products)
    else RequestViews(items[1..], products)
  }

  /** The answer of `GET /api/sales/:id`; `fault` makes the header query (0) or the
      items query (1) fail, which is answered with 500. */
  function SaleDetailOf(t: SaleTables, clients: map<nat, ClientRow>, products: map<ProductId, ProductRow>,
                        id: SaleId, fault: Option<nat>): (r: DetailReply)
    ensures fault == Some(0) ==> r == DetailError(ServerErrorMessage)
    ensures fault != Some(0) && id !in t.sales ==> r == DetailNotFound(SaleNotFoundMessage)
    ensures fault == Some(1) && id in t.sales ==> r == DetailError(ServerErrorMessage)
    ensures r.Found? <==> fault != Some(0) && fault != Some(1) && id in t.sales
    ensures r.Found? ==> r.detail.id == id && r.detail.totalAmount == t.sales[id].totalAmount
    ensures r.Found? ==> r.detail.saleDate == t.sales[id].saleDate
    ensures r.Found? ==> r.detail.items == JoinItems(t.saleItems, products, id)
    ensures r.Found? ==> (r.detail.clientName.Some? <==>
      t.sales[id].clientId.Some? && t.sales[id].clientId.value in clients)
    ensures r.Found? && t.sales[id].clientId.Some? && t.sales[id].clientId.value in clients ==>
      r.detail.clientName == Some(clients[t.sales[id].clientId.value].name)
  {
    if fault == Some(0) then DetailError(ServerErrorMessage)
    else if id !in t.sales then DetailNotFound(SaleNotFoundMessage)
    else if fault == Some(1) then DetailError(ServerErrorMessage)
    else
      var s := t.sales[id];
      var clientName := if s.clientId.Some? && s.clientId.value in clients
                        then Some(clients[s.clientId.value].name) else None;
      Found(SaleDetail(id, s.saleDate, s.totalAmount, clientName, JoinItems(t.saleItems, products, id)))
  }

  lemma {:induction false} LineItemsJoin(items: seq<SaleItemRequest>, products: map<ProductId, ProductRow>, id: SaleId)
    ensures JoinItems(LineItems(items, id), products, id) == RequestViews(items, products)
  {
    if items != [] {
      var rows := LineItems(items, id);
      assert rows == [LineItem(items[0], id)] + LineItems(items[1..], id) by {
        var tail := LineItems(items[1..], id);
        assert |rows| == 1 + |tail|;
        forall i | 0 <= i < |rows| ensures rows[i] == ([LineItem(items[0], id)] + tail)[i] {
          if i > 0 {
            assert items[1..][i - 1] == items[i];
          }
        }
      }
      JoinItemsConcat([LineItem(items[0], id)], LineItems(items[1..], id), products, id);
      LineItemsJoin(items[1..], products, id);
      assert [LineItem(items[0], id)][1..] == [];
    }
  }

  // ---------------------------------------------------------------------------
  // GET /api/stock and GET /api/dashboard
  // ---------------------------------------------------------------------------

  /** A row of `GET /api/stock`: `s.quantity, s.last_updated, p.name, p.id`. */
  datatype StockListingRow = StockListingRow(quantity: int, lastUpdated: Instant, productName: string, productId: ProductId)

  /** `rows` is an answer of `GET /api/stock`: one row per stock row whose product
      exists (inner join), in some order (the source sorts by product name). */
  predicate IsStockListing(rows: seq<StockListingRow>, stock: map<ProductId, StockRow>, products: map<ProductId, ProductRow>) {
    && (forall i :: 0 <= i < |rows| ==>
          rows[i].productId in stock && rows[i].productId in products
          && rows[i].quantity == stock[rows[i].productId].quantity
          && rows[i].lastUpdated == stock[rows[i].productId].lastUpdated
          && rows[i].productName == products[rows[i].productId].name)
    && (forall p :: p in stock && p in products ==> exists i :: 0 <= i < |rows| && rows[i].productId == p)
    && (forall i, j :: 0 <= i < j < |rows| ==> rows[i].productId != rows[j].productId)
  }

  /** The ids of a listing, as a set. */
  function ListedIds(rows: seq<StockListingRow>): set<ProductId> {
    set i | 0 <= i < |rows| :: rows[i].productId
  }

  /** A stock listing has exactly one row per product that has both a stock row and a
      product row: its length is the size of the inner join. */
  lemma StockListingSize(rows: seq<StockListingRow>, stock: map<ProductId, StockRow>, products: map<ProductId, ProductRow>)
    requires IsStockListing(rows, stock, products)
    ensures ListedIds(rows) == stock.Keys * products.Keys
    ensures |rows| == |stock.Keys * products.Keys|
  {
    DistinctIdsCount(rows);
  }

  lemma ListedIdsSnoc(rows: seq<StockListingRow>)
    requires rows != []
    ensures ListedIds(rows) == ListedIds(rows[..|rows| - 1]) + {rows[|rows| - 1].productId}
  {
    var init := rows[..|rows| - 1];
    forall x | x in ListedIds(rows) ensures x in ListedIds(init) + {rows[|rows| - 1].productId} {
      var i :| 0 <= i < |rows| && rows[i].productId == x;
      if i < |rows| - 1 {
        assert init[i] == rows[i];
      }
    }
    forall x | x in ListedIds(init) ensures x in ListedIds(rows) {
      var i :| 0 <= i < |init| && init[i].productId == x;
      assert rows[i] == init[i];
    }
  }

  lemma {:induction false} DistinctIdsCount(rows: seq<StockListingRow>)
    requires forall i, j :: 0 <= i < j < |rows| ==> rows[i].productId != rows[j].productId
    ensures |ListedIds(rows)| == |rows|
  {
    if rows != [] {
      var init := rows[..|rows| - 1];
      DistinctIdsCount(init);
      ListedIdsSnoc(rows);
      forall i | 0 <= i < |init| ensures init[i].productId != rows[|rows| - 1].productId {
        assert rows[i] == init[i];
      }
    }
  }

  datatype Dashboard = Dashboard(totalProdutos: nat, produtosEstoque: nat, totalClientes: nat, vendasHoje: nat)

  predicate Positive(r: StockRow) {
    r.quantity > 0
  }

  predicate SoldOn(r: SaleRow, today: Date) {
    r.saleDate.date == today
  }

  // ---------------------------------------------------------------------------
  // The store
  // ---------------------------------------------------------------------------

  /** The database of the web version. `nextSaleId` is the auto-increment counter of
      `sales`; as in InnoDB, a rolled-back insert does not give its id back. */
  class SqlStore {
    var categories: map<nat, CategoryRow>
    var products: map<ProductId, ProductRow>
    var clients: map<nat, ClientRow>
    var suppliers: map<nat, SupplierRow>
    var stock: map<ProductId, StockRow>
    var sales: map<SaleId, SaleRow>
    var saleItems: seq<SaleItemRow>
    var nextSaleId: SaleId

    /** Every sale id was handed out by the counter, and every line item belongs to a sale. */
    predicate Valid()
      reads this
    {
      && (forall s :: s in sales ==> s < nextSaleId)
      && (forall i :: 0 <= i < |saleItems| ==> saleItems[i].saleId in sales)
    }

    constructor ()
      ensures Valid()
      ensures categories == map[] && products == map[] && clients == map[] && suppliers == map[]
      ensures stock == map[] && sales == map[] && saleItems == [] && nextSaleId == 1
    {
      categories, products, clients, suppliers := map[], map[], map[], map[];
      stock, sales, saleItems, nextSaleId := map[], map[], [], 1;
    }

    function Tables(): SaleTables
      reads this
    {
      SaleTables(stock, sales, saleItems)
    }

    /** `POST /api/sales`. */
    method RegisterSale(req: SaleRequest, now: Instant, fault: Option<nat>) returns (reply: SaleReply)
      requires Valid()
      modifies this`stock, this`sales, this`saleItems, this`nextSaleId
      ensures Valid()
      ensures !HasItems(req) ==> reply == BadRequest(EmptySaleMessage)
      ensures HasItems(req) && FaultReached(fault, |req.items.value|) ==> reply == ServerError(SaleFailedMessage)
      ensures HasItems(req) && !FaultReached(fault, |req.items.value|) ==>
        && reply == Created(old(nextSaleId))
        && old(nextSaleId) !in old(sales)
        && Tables() == CommitSale(old(Tables()), req, old(nextSaleId), now)
      ensures !reply.Created? ==> Tables() == old(Tables())
      ensures nextSaleId == old(nextSaleId) + (if HasItems(req) && fault != Some(0) && fault != Some(1) then 1 else 0)
    {
      if req.items.None? || |req.items.value| == 0 {
        return BadRequest(EmptySaleMessage);
      }
      var items := req.items.value;
      var stock0, sales0, saleItems0 := stock, sales, saleItems;
      if fault == Some(0) || fault == Some(1) {
        return ServerError(SaleFailedMessage);
      }
      var id := nextSaleId;
      sales := sales[id := Header(req, now)];
      nextSaleId := nextSaleId + 1;
      var k := 0;
      while k < |items|
        invariant 0 <= k <= |items|
        invariant sales == sales0[id := Header(req, now)] && nextSaleId == id + 1
        invariant saleItems == saleItems0 + LineItems(items[..k], id)
        invariant stock == DecrementAll(stock0, items[..k])
        invariant fault.None? || fault.value >= 2 + 2 * k
      {
        if fault == Some(2 + 2 * k) {
          stock, sales, saleItems := stock0, sales0, saleItems0;
          return ServerError(SaleFailedMessage);
        }
        saleItems := saleItems + [LineItem(items[k], id)];
        if fault == Some(3 + 2 * k) {
          stock, sales, saleItems := stock0, sales0, saleItems0;
          return ServerError(SaleFailedMessage);
        }
        stock := Decrement(stock, items[k]);
        assert items[..k + 1][..k] == items[..k];
        k := k + 1;
      }
      assert items[..k] == items;
      if fault == Some(2 + 2 * |items|) {
        stock, sales, saleItems := stock0, sales0, saleItems0;
        return ServerError(SaleFailedMessage);
      }
      return Created(id);
    }

    /** `PUT /api/stock/:productId`: an upsert on the product's row. There is no
        try/catch, so a failing statement (`fault`) leaves the request unanswered. */
    method PutStock(productId: ProductId, quantity: int, now: Instant, fault: bool) returns (reply: Option<string>)
      modifies this`stock
      ensures fault ==> reply.None? && stock == old(stock)
      ensures !fault ==> reply == Some("Estoque atualizado") && stock == Upsert(old(stock), productId, quantity, now)
    {
      if fault {
        return None;
      }
      stock := stock[productId := StockRow(quantity, now)];
      return Some("Estoque atualizado");
    }

    /** `GET /api/dashboard`. */
    function DashboardOn(today: Date): (d: Dashboard)
      reads this
      ensures d.totalProdutos == |products| && d.totalClientes == |clients|
      ensures d.produtosEstoque <= |stock| && d.vendasHoje <= |sales|
    {
      Dashboard(|products|, CountMap(stock, Positive), |clients|, CountMap(sales, (s: SaleRow) => SoldOn(s, today)))
    }

    /* The update and delete routes have no try/catch: a statement that fails (`fault`:
       a foreign key such as a `sale_items` row naming the product, a `category_id`
       that does not exist, a bind parameter that is `undefined`) leaves the request
       unanswered (`None`) and the table unchanged. Otherwise the reply is 404 exactly
       when no row has the id. */

    /** `PUT /api/categories/:id`. */
    method UpdateCategory(id: nat, name: string, description: Option<string>, fault: bool) returns (reply: Option<WriteReply>)
      modifies this`categories
      ensures reply.None? <==> fault
      ensures reply == Some(NotFound(CategoryNotFound)) <==> !fault && id !in old(categories)
      ensures reply == Some(Updated(id)) <==> !fault && id in old(categories)
      ensures reply == Some(Updated(id)) ==>
        Some(categories) == UpdateById(old(categories), id, CategoryRow(name, NullIfEmpty(description)))
      ensures reply != Some(Updated(id)) ==> categories == old(categories)
    {
      if fault {
        return None;
      }
      var r := UpdateById(categories, id, CategoryRow(name, NullIfEmpty(description)));
      if r.None? {
        return Some(NotFound(CategoryNotFound));
      }
      categories := r.value;
      return Some(Updated(id));
    }

    /** `DELETE /api/categories/:id`. */
    method DeleteCategory(id: nat, fault: bool) returns (reply: Option<WriteReply>)
      modifies this`categories
      ensures reply.None? <==> fault
      ensures reply == Some(NotFound(CategoryNotFound)) <==> !fault && id !in old(categories)
      ensures reply == Some(Deleted) <==> !fault && id in old(categories)
      ensures reply == Some(Deleted) ==> Some(categories) == DeleteById(old(categories), id)
      ensures reply != Some(Deleted) ==> categories == old(categories)
    {
      if fault {
        return None;
      }
      var r := DeleteById(categories, id);
      if r.None? {
        return Some(NotFound(CategoryNotFound));
      }
      categories := r.value;
      return Some(Deleted);
    }

    /** `PUT /api/products/:id`. `status` is bound as received, without `|| null` and
        without the insert route's default, so a body without it (`None`) is an
        `undefined` bind: the statement fails and the request is not answered. */
    method UpdateProduct(id: ProductId, name: string, description: Option<string>, price: Cents,
                         status: Option<string>, categoryId: Option<nat>, fault: bool) returns (reply: Option<WriteReply>)
      modifies this`products
      ensures reply.None? <==> fault || status.None?
      ensures reply == Some(NotFound(ProductNotFound)) <==> !fault && status.Some? && id !in old(products)
      ensures reply == Some(Updated(id)) <==> !fault && status.Some? && id in old(products)
      ensures reply == Some(Updated(id)) ==>
        Some(products) == UpdateById(old(products), id,
          ProductRow(name, NullIfEmpty(description), price, status, NullIfZero(categoryId)))
      ensures reply != Some(Updated(id)) ==> products == old(products)
    {
      if fault || status.None? {
        return None;
      }
      var r := UpdateById(products, id, ProductRow(name, NullIfEmpty(description), price, status, NullIfZero(categoryId)));
      if r.None? {
        return Some(NotFound(ProductNotFound));
      }
      products := r.value;
      return Some(Updated(id));
    }

    /** `DELETE /api/products/:id`. */
    method DeleteProduct(id: ProductId, fault: bool) returns (reply: Option<WriteReply>)
      modifies this`products
      ensures reply.None? <==> fault
      ensures reply == Some(NotFound(ProductNotFound)) <==> !fault && id !in old(products)
      ensures reply == Some(Deleted) <==> !fault && id in old(products)
      ensures reply == Some(Deleted) ==> Some(products) == DeleteById(old(products), id)
      ensures reply != Some(Deleted) ==> products == old(products)
    {
      if fault {
        return None;
      }
      var r := DeleteById(products, id);
      if r.None? {
        return Some(NotFound(ProductNotFound));
      }
      products := r.value;
      return Some(Deleted);
    }

    /** `PUT /api/clients/:id`. */
    method UpdateClient(id: nat, name: string, cpf: Option<string>, email: Option<string>,
                        phone: Option<string>, address: Option<string>, fault: bool) returns (reply: Option<WriteReply>)
      modifies this`clients
      ensures reply.None? <==> fault
      ensures reply == Some(NotFound(ClientNotFound)) <==> !fault && id !in old(clients)
      ensures reply == Some(Updated(id)) <==> !fault && id in old(clients)
      ensures reply == Some(Updated(id)) ==>
        Some(clients) == UpdateById(old(clients), id,
          ClientRow(name, NullIfEmpty(cpf), NullIfEmpty(email), NullIfEmpty(phone), NullIfEmpty(address)))
      ensures reply != Some(Updated(id)) ==> clients == old(clients)
    {
      if fault {
        return None;
      }
      var row := ClientRow(name, NullIfEmpty(cpf), NullIfEmpty(email), NullIfEmpty(phone), NullIfEmpty(address));
      var r := UpdateById(clients, id, row);
      if r.None? {
        return Some(NotFound(ClientNotFound));
      }
      clients := r.value;
      return Some(Updated(id));
    }

    /** `DELETE /api/clients/:id`. */
    method DeleteClient(id: nat, fault: bool) returns (reply: Option<WriteReply>)
      modifies this`clients
      ensures reply.None? <==> fault
      ensures reply == Some(NotFound(ClientNotFound)) <==> !fault && id !in old(clients)
      ensures reply == Some(Deleted) <==> !fault && id in old(clients)
      ensures reply == Some(Deleted) ==> Some(clients) == DeleteById(old(clients), id)
      ensures reply != Some(Deleted) ==> clients == old(clients)
    {
      if fault {
        return None;
      }
      var r := DeleteById(clients, id);
      if r.None? {
        return Some(NotFound(ClientNotFound));
      }
      clients := r.value;
      return Some(Deleted);
    }

    /** `PUT /api/suppliers/:id`. */
    method UpdateSupplier(id: nat, name: string, contactName: Option<string>, phone: Option<string>,
                          email: Option<string>, fault: bool) returns (reply: Option<WriteReply>)
      modifies this`suppliers
      ensures reply.None? <==> fault
      ensures reply == Some(NotFound(SupplierNotFound)) <==> !fault && id !in old(suppliers)
      ensures reply == Some(Updated(id)) <==> !fault && id in old(suppliers)
      ensures reply == Some(Updated(id)) ==>
        Some(suppliers) == UpdateById(old(suppliers), id,
          SupplierRow(name, NullIfEmpty(contactName), NullIfEmpty(phone), NullIfEmpty(email)))
      ensures reply != Some(Updated(id)) ==> suppliers == old(suppliers)
    {
      if fault {
        return None;
      }
      var row := SupplierRow(name, NullIfEmpty(contactName), NullIfEmpty(phone), NullIfEmpty(email));
      var r := UpdateById(suppliers, id, row);
      if r.None? {
        return Some(NotFound(SupplierNotFound));
      }
      suppliers := r.value;
      return Some(Updated(id));
    }

    /** `DELETE /api/suppliers/:id`. */
    method DeleteSupplier(id: nat, fault: bool) returns (reply: Option<WriteReply>)
      modifies this`suppliers
      ensures reply.None? <==> fault
      ensures reply == Some(NotFound(SupplierNotFound)) <==> !fault && id !in old(suppliers)
      ensures reply == Some(Deleted) <==> !fault && id in old(suppliers)
      ensures reply == Some(Deleted) ==> Some(suppliers) == DeleteById(old(suppliers), id)
      ensures reply != Some(Deleted) ==> suppliers == old(suppliers)
    {
      if fault {
        return None;
      }
      var r := DeleteById(suppliers, id);
      if r.None? {
        return Some(NotFound(SupplierNotFound));
      }
      suppliers := r.value;
      return Some(Deleted);
    }
  }

  /** The stock table after the upsert: exactly one row for the product, holding the
      given quantity (negative values are not checked) and time; other rows unchanged. */
  function Upsert(stock: map<ProductId, StockRow>, p: ProductId, quantity: int, now: Instant): (r: map<ProductId, StockRow>)
    ensures r.Keys == stock.Keys + {p}
    ensures r[p] == StockRow(quantity, now)
    ensures forall q :: q in stock && q != p ==> r[q] == stock[q]
  {
    stock[p := StockRow(quantity, now)]
  }

  /** Repeating an upsert with the same values changes nothing. */
  lemma UpsertIdempotent(stock: map<ProductId, StockRow>, p: ProductId, quantity: int, now: Instant)
    ensures Upsert(Upsert(stock, p, quantity, now), p, quantity, now) == Upsert(stock, p, quantity, now)
  {
  }

  /** The dashboard's in-stock count after an upsert moves by that one row's change. */
  lemma InStockAfterUpsert(stock: map<ProductId, StockRow>, p: ProductId, quantity: int, now: Instant)
    ensures p !in stock ==>
      CountMap(Upsert(stock, p, quantity, now), Positive) == CountMap(stock, Positive) + (if quantity > 0 then 1 else 0)
    ensures p in stock ==>
      CountMap(Upsert(stock, p, quantity, now), Positive) + (if stock[p].quantity > 0 then 1 else 0)
        == CountMap(stock, Positive) + (if quantity > 0 then 1 else 0)
  {
    if p in stock {
      CountMapReplace(stock, p, StockRow(quantity, now), Positive);
    } else {
      CountMapInsert(stock, p, StockRow(quantity, now), Positive);
    }
  }

  /** A committed sale dated today adds one to "vendas hoje"; one dated another day
      leaves it unchanged. */
  lemma SalesTodayAfterCommit(t: SaleTables, req: SaleRequest, id: SaleId, now: Instant, today: Date)
    requires HasItems(req) && id !in t.sales
    ensures CountMap(CommitSale(t, req, id, now).sales, (s: SaleRow) => SoldOn(s, today))
         == CountMap(t.sales, (s: SaleRow) => SoldOn(s, today)) + (if now.date == today then 1 else 0)
  {
    CountMapInsert(t.sales, id, Header(req, now), (s: SaleRow) => SoldOn(s, today));
  }

  /** After a committed sale, its detail shows the caller's total and exactly the request
      items whose product exists, in request order. */
  lemma DetailAfterCommit(t: SaleTables, clients: map<nat, ClientRow>, products: map<ProductId, ProductRow>,
                          req: SaleRequest, id: SaleId, now: Instant)
    requires HasItems(req)
    requires forall i :: 0 <= i < |t.saleItems| ==> t.saleItems[i].saleId != id
    ensures var r := SaleDetailOf(CommitSale(t, req, id, now), clients, products, id, None);
      && r.Found?
      && r.detail.totalAmount == req.totalAmount
      && r.detail.saleDate == now
      && r.detail.items == RequestViews(req.items.value, products)
  {
    var items := req.items.value;
    JoinItemsConcat(t.saleItems, LineItems(items, id), products, id);
    JoinItemsOtherSales(t.saleItems, products, id);
    LineItemsJoin(items, products, id);
  }

  /** In a valid store the next sale id is not used by any line item, so the detail
      lemma applies to every sale `RegisterSale` commits. */
  lemma NextIdUnused(t: SaleTables, nextSaleId: SaleId)
    requires forall s :: s in t.sales ==> s < nextSaleId
    requires forall i :: 0 <= i < |t.saleItems| ==> t.saleItems[i].saleId in t.sales
    ensures forall i :: 0 <= i < |t.saleItems| ==> t.saleItems[i].saleId != nextSaleId
  {
  }
}
