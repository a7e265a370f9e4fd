/** The IndexedDB version of the application (`js/script.js`): the sale-save handler,
    the stock modal, the stock-entry handler, the dashboard counts, the delete
    dispatcher and the `dbAPI.put` id check.

    The object store `estoque` is a sequence of records in `getAll()` order, and
    `find` takes the first match. The other stores are maps from key to record.
    Generated ids and the clock are parameters. `fault == Some(k)` (or `fault` for a
    single write) makes the k-th store write fail. */
module Legacy {
  import opened Common

  /** What `generateId()` returns: never the empty string. */
  type RecordId = s: string | s != "" witness "0"

  datatype StockRecord = StockRecord(id: string, productId: string, quantity: int, updatedAt: Instant)

  datatype LocalProduct = LocalProduct(name: string, price: Cents)

  datatype LocalEntity = LocalEntity(name: string)

  /** A row of the sale form: the selected product ("" when none), `Number(qty) || 0`,
      and the unit price, `None` when the field is empty. */
  datatype SaleLine = SaleLine(productId: string, quantity: int, unitPrice: Option<Cents>)

  datatype LocalSale = LocalSale(
    id: string, clientId: Option<string>, items: seq<SaleLine>, total: Cents, date: Instant, status: string)

  function IdIs(k: string): StockRecord -> bool {
    (r: StockRecord) => r.id == k
  }

  function ProductIs(p: string): StockRecord -> bool {
    (r: StockRecord) => r.productId == p
  }

  // ---------------------------------------------------------------------------
  // The `estoque` object store and dbAPI.put / dbAPI.add
  // ---------------------------------------------------------------------------

  /** Keys are distinct and non-empty, as an object store keeps them. */
  predicate ValidRecords(records: seq<StockRecord>) {
    && (forall i, j :: 0 <= i < j < |records| ==> records[i].id != records[j].id)
    && (forall i :: 0 <= i < |records| ==> records[i].id != "")
  }

  /** The record stored under key `k`, as `store.get(k)` finds it. */
  function Lookup(records: seq<StockRecord>, k: string): Option<StockRecord> {
    match FindFirst(records, IdIs(k))
    case None => None
    case Some(i) => Some(records[i])
  }

  const PutWithoutId := "Item must have id for put()"
  const KeyExists := "ConstraintError"

  /** `dbAPI.put('estoque', rec)`: refused without an id; otherwise the record
      under that key is replaced, or stored when the key is new. */
  function PutRecord(records: seq<StockRecord>, rec: StockRecord): (r: Result<seq<StockRecord>, string>)
    ensures r.Err? <==> rec.id == ""
    ensures r.Err? ==> r.error == PutWithoutId
  {
    if rec.id == "" then Err(PutWithoutId)
    else match FindFirst(records, IdIs(rec.id))
      case Some(i) => Ok(records[i := rec])
      case None => Ok(records + [rec])
  }

  /** `dbAPI.add('estoque', rec)`: the key is `rec.id || generateId()`; a key already
      in the store makes the request fail. */
  function AddRecord(records: seq<StockRecord>, rec: StockRecord, freshId: RecordId): (r: Result<seq<StockRecord>, string>)
    ensures r.Err? <==> Lookup(records, if rec.id == "" then freshId else rec.id).Some?
    ensures r.Err? ==> r.error == KeyExists
  {
    var key := if rec.id == "" then freshId else rec.id;
    if FindFirst(records, IdIs(key)).Some? then Err(KeyExists)
    else Ok(records + [rec.(id := key)])
  }

  lemma {:induction false} LookupAfterWrite(records: seq<StockRecord>, rec: StockRecord, r: seq<StockRecord>, k: string)
    requires rec.id != ""
    requires (match FindFirst(records, IdIs(rec.id))
              case Some(i) => r == records[i := rec]
              case None => r == records + [rec])
    ensures Lookup(r, rec.id) == Some(rec)
    ensures k != rec.id ==> Lookup(r, k) == Lookup(records, k)
    ensures ValidRecords(records) ==> ValidRecords(r)
  {
    match FindFirst(records, IdIs(rec.id))
    case Some(i) =>
      FindFirstCongruent(r, records, IdIs(rec.id));
      if k != rec.id {
        FindFirstCongruent(r, records, IdIs(k));
      }
    case None =>
      FindFirstAppend(records, rec, IdIs(rec.id));
      FindFirstAppend(records, rec, IdIs(k));
      if ValidRecords(records) {
        forall i, j | 0 <= i < j < |r| ensures r[i].id != r[j].id {
          if j == |records| {
            assert !IdIs(rec.id)(records[i]);
          }
        }
      }
  }

  /** After a put, the key holds the record that was put and every other key keeps its
      record; the store stays well formed. */
  lemma PutRecordEffect(records: seq<StockRecord>, rec: StockRecord, k: string)
    requires PutRecord(records, rec).Ok?
    ensures Lookup(PutRecord(records, rec).value, rec.id) == Some(rec)
    ensures k != rec.id ==> Lookup(PutRecord(records, rec).value, k) == Lookup(records, k)
    ensures ValidRecords(records) ==> ValidRecords(PutRecord(records, rec).value)
  {
    LookupAfterWrite(records, rec, PutRecord(records, rec).value, k);
  }

  /** After an add, the new key holds the record (with that key) and every other key
      keeps its record; the store stays well formed. */
  lemma AddRecordEffect(records: seq<StockRecord>, rec: StockRecord, freshId: RecordId, k: string)
    requires AddRecord(records, rec, freshId).Ok?
    ensures var key := if rec.id == "" then freshId else rec.id;
      && Lookup(AddRecord(records, rec, freshId).value, key) == Some(rec.(id := key))
      && (k != key ==> Lookup(AddRecord(records, rec, freshId).value, k) == Lookup(records, k))
      && (ValidRecords(records) ==> ValidRecords(AddRecord(records, rec, freshId).value))
  {
    var key := if rec.id == "" then freshId else rec.id;
    LookupAfterWrite(records, rec.(id := key), AddRecord(records, rec, freshId).value, k);
  }

  /** In a well-formed store, putting back a record read at index i with its key
      unchanged replaces it at that index. */
  lemma PutAt(records: seq<StockRecord>, i: nat, rec: StockRecord)
    requires ValidRecords(records) && i < |records| && rec.id == records[i].id
    ensures PutRecord(records, rec) == Ok(records[i := rec])
  {
    FindFirstUnique(records, IdIs(rec.id), Some(i));
  }

  // ---------------------------------------------------------------------------
  // openAddVendaModal: the save handler
  // ---------------------------------------------------------------------------

  /** `i.productId && i.quantity > 0`. */
  predicate Kept(it: SaleLine) {
    it.productId != "" && it.quantity > 0
  }

  /** The rows the handler keeps, in form order. */
  function ValidLines(rows: seq<SaleLine>): (items: seq<SaleLine>)
    ensures forall x :: x in items <==> x in rows && Kept(x)
    ensures IsSubsequence(items, rows)
    ensures |items| <= |rows|
  {
    if rows == [] then []
    else
      assert forall x :: x in rows <==> x == rows[0] || x in rows[1..];
      if Kept(rows[0]) then [rows[0]] + ValidLines(rows[1..]) else ValidLines(rows[1..])
  }

  /** The price the total uses: the given unit price, else the product's price, else 0
      when the product is not in the store. */
  function LinePrice(it: SaleLine, products: map<string, LocalProduct>): Cents {
    if it.unitPrice.Some? then it.unitPrice.value
    else if it.productId in products then products[it.productId].price
    else 0
  }

  /** Every line has a positive quantity and a non-negative price. */
  predicate NonNegativeLines(items: seq<SaleLine>, products: map<string, LocalProduct>) {
    forall i :: 0 <= i < |items| ==> items[i].quantity > 0 && LinePrice(items[i], products) >= 0
  }

  /** The sale total: the sum of price times quantity over the items. */
  function SaleTotal(items: seq<SaleLine>, products: map<string, LocalProduct>): (t: Cents)
    ensures NonNegativeLines(items, products) ==> t >= 0
  {
    if items == [] then 0
    else SaleTotal(items[..|items| - 1], products) + LinePrice(items[|items| - 1], products) * items[|items| - 1].quantity
  }

  /** The loop `for (const it of items) total += price * it.quantity`. */
  method ComputeTotal(items: seq<SaleLine>, products: map<string, LocalProduct>) returns (total: Cents)
    ensures total == SaleTotal(items, products)
  {
    total := 0;
    for k := 0 to |items|
      invariant total == SaleTotal(items[..k], products)
    {
      assert items[..k + 1][..k] == items[..k];
      total := total + LinePrice(items[k], products) * items[k].quantity;
    }
    assert items[..|items|] == items;
  }

  lemma {:induction false} SaleTotalConcat(a: seq<SaleLine>, b: seq<SaleLine>, products: map<string, LocalProduct>)
    ensures SaleTotal(a + b, products) == SaleTotal(a, products) + SaleTotal(b, products)
  {
    if b != [] {
      assert (a + b)[..|a + b| - 1] == a + b[..|b| - 1];
      SaleTotalConcat(a, b[..|b| - 1], products);
    } else {
      assert a + b == a;
    }
  }

  /** The handler's snapshot of the store and the records it added: `estoqueAll` is read
      once, its records are changed in place by `rec.quantity = ...`, and records added
      for products without one do not enter it. */
  datatype StockView = StockView(snap: seq<StockRecord>, added: seq<StockRecord>)

  function Persisted(v: StockView): seq<StockRecord> {
    v.snap + v.added
  }

  /** The stock change of one item: the first record of the product drops to
      `max(0, quantity - qty)`; without a record, a new one holds `max(0, -qty)`. */
  function Sell(v: StockView, it: SaleLine, newId: RecordId, now: Instant): (r: StockView)
    ensures |r.snap| == |v.snap| && |v.added| <= |r.added| <= |v.added| + 1
  {
    match FindFirst(v.snap, ProductIs(it.productId))
    case Some(i) =>
      StockView(v.snap[i := v.snap[i].(quantity := Max(0, v.snap[i].quantity - it.quantity), updatedAt := now)], v.added)
    case None =>
      StockView(v.snap, v.added + [StockRecord(newId, it.productId, Max(0, -it.quantity), now)])
  }

  /** The stock changes of the items in order; item k uses generated id `ids(k)`. */
  function SellAll(v: StockView, items: seq<SaleLine>, ids: nat -> RecordId, now: Instant): (r: StockView)
    ensures |r.snap| == |v.snap| && |v.added| <= |r.added| <= |v.added| + |items|
  {
    if items == [] then v
    else Sell(SellAll(v, items[..|items| - 1], ids, now), items[|items| - 1], ids(|items| - 1), now)
  }

  /** One more item extends the sale by one step. */
  lemma SellAllNext(v: StockView, items: seq<SaleLine>, ids: nat -> RecordId, now: Instant, k: nat)
    requires k < |items|
    ensures SellAll(v, items[..k + 1], ids, now) == Sell(SellAll(v, items[..k], ids, now), items[k], ids(k), now)
  {
    assert items[..k + 1][..k] == items[..k];
  }

  /** Each stock write of the save loop turns the persisted store into the persisted
      view after the item: a put at the record's index, or an add that fails only when
      the generated key is taken. */
  lemma {:induction false} SellWrite(v: StockView, it: SaleLine, newId: RecordId, now: Instant)
    requires ValidRecords(Persisted(v))
    ensures var next := Sell(v, it, newId, now);
      match FindFirst(v.snap, ProductIs(it.productId))
      case Some(i) =>
        PutRecord(Persisted(v), next.snap[i]) == Ok(Persisted(next)) && ValidRecords(Persisted(next))
      case None =>
        && |next.added| == |v.added| + 1
        && AddRecord(Persisted(v), next.added[|v.added|], newId)
             == (if Lookup(Persisted(v), newId).Some? then Err(KeyExists) else Ok(Persisted(next)))
        && (Lookup(Persisted(v), newId).None? ==> ValidRecords(Persisted(next)))
  {
    var next := Sell(v, it, newId, now);
    match FindFirst(v.snap, ProductIs(it.productId))
    case Some(i) =>
      PutAt(Persisted(v), i, next.snap[i]);
      assert Persisted(v)[i := next.snap[i]] == Persisted(next);
      PutRecordEffect(Persisted(v), next.snap[i], "");
    case None =>
      var rec := next.added[|v.added|];
      assert Persisted(next) == Persisted(v) + [rec];
      if Lookup(Persisted(v), newId).None? {
        AddRecordEffect(Persisted(v), rec, newId, "");
      }
  }

  function NewSale(saleId: RecordId, clientId: string, items: seq<SaleLine>, total: Cents, now: Instant): (r: LocalSale)
    ensures r.id == saleId && r.items == items && r.total == total && r.date == now && r.status == "concluida"
    ensures r.clientId.None? <==> clientId == ""
    ensures r.clientId.Some? ==> r.clientId.value == clientId
  {
    LocalSale(saleId, if clientId == "" then None else Some(clientId), items, total, now, "concluida")
  }

  datatype SaleOutcome = NoValidItems | SaleWriteFailed | StockWriteFailed(step: nat) | Saved

  /** The quantity of the first record of each product after the items, applied one item
      at a time: every item of the product clamps at 0 again. */
  function ClampAll(q: int, items: seq<SaleLine>, p: string): int {
    if items == [] then q
    else
      var before := ClampAll(q, items[..|items| - 1], p);
      if items[|items| - 1].productId == p then Max(0, before - items[|items| - 1].quantity) else before
  }

  function QuantityOf(items: seq<SaleLine>, p: string): int {
    if items == [] then 0
    else QuantityOf(items[..|items| - 1], p) + (if items[|items| - 1].productId == p then items[|items| - 1].quantity else 0)
  }

  predicate Mentions(items: seq<SaleLine>, p: string) {
    exists i :: 0 <= i < |items| && items[i].productId == p
  }

  /** For positive quantities, clamping after every item is the same as clamping once
      after subtracting the product's whole quantity. */
  lemma {:induction false} ClampAllIsMax(q: int, items: seq<SaleLine>, p: string)
    requires forall i :: 0 <= i < |items| ==> Kept(items[i])
    ensures ClampAll(q, items, p) == if Mentions(items, p) then Max(0, q - QuantityOf(items, p)) else q
  {
    if items != [] {
      var init := items[..|items| - 1];
      var last := items[|items| - 1];
      ClampAllIsMax(q, init, p);
      assert forall i :: 0 <= i < |init| ==> init[i] == items[i];
      assert Mentions(items, p) <==> Mentions(init, p) || last.productId == p;
      if !Mentions(init, p) {
        QuantityOfUnmentioned(init, p);
      }
      if last.productId == p {
        assert last.quantity > 0;
        assert QuantityOf(items, p) == QuantityOf(init, p) + last.quantity;
        assert ClampAll(q, items, p) == Max(0, ClampAll(q, init, p) - last.quantity);
      }
    }
  }

  lemma {:induction false} QuantityOfUnmentioned(items: seq<SaleLine>, p: string)
    requires !Mentions(items, p)
    ensures QuantityOf(items, p) == 0
  {
    if items != [] {
      var init := items[..|items| - 1];
      assert forall i :: 0 <= i < |init| ==> init[i] == items[i];
      QuantityOfUnmentioned(init, p);
    }
  }

  /** Keys and products of two record sequences agree index by index. */
  predicate SameKeys(a: seq<StockRecord>, b: seq<StockRecord>) {
    |a| == |b| && forall i :: 0 <= i < |a| ==> a[i].id == b[i].id && a[i].productId == b[i].productId
  }

  lemma SameKeysFind(a: seq<StockRecord>, b: seq<StockRecord>, p: string)
    requires SameKeys(a, b)
    ensures FindFirst(a, ProductIs(p)) == FindFirst(b, ProductIs(p))
  {
    FindFirstCongruent(a, b, ProductIs(p));
  }

  /** One item, index by index: only the first record of its product changes;
      without one, a record is added. */
  lemma {:induction false} SellStep(v: StockView, it: SaleLine, newId: RecordId, now: Instant)
    ensures var w := Sell(v, it, newId, now); var f := FindFirst(v.snap, ProductIs(it.productId));
      && SameKeys(w.snap, v.snap)
      && (forall i :: 0 <= i < |v.snap| ==>
            w.snap[i] == (if f == Some(i) then v.snap[i].(quantity := Max(0, v.snap[i].quantity - it.quantity), updatedAt := now)
                          else v.snap[i]))
      && w.added == (if f.None? then v.added + [StockRecord(newId, it.productId, Max(0, -it.quantity), now)] else v.added)
  {
  }

  lemma {:induction false} SellAllKeys(v: StockView, items: seq<SaleLine>, ids: nat -> RecordId, now: Instant)
    ensures SameKeys(SellAll(v, items, ids, now).snap, v.snap)
  {
    if items != [] {
      SellAllKeys(v, items[..|items| - 1], ids, now);
      SellStep(SellAll(v, items[..|items| - 1], ids, now), items[|items| - 1], ids(|items| - 1), now);
    }
  }

  /** The snapshot part of a sale, at the first record of a product: it ends with
      `ClampAll` of its quantity. */
  lemma {:induction false} SellAllFirst(v: StockView, items: seq<SaleLine>, ids: nat -> RecordId, now: Instant, i: nat)
    requires i < |v.snap| && FindFirst(v.snap, ProductIs(v.snap[i].productId)) == Some(i)
    ensures i < |SellAll(v, items, ids, now).snap|
    ensures SellAll(v, items, ids, now).snap[i].quantity == ClampAll(v.snap[i].quantity, items, v.snap[i].productId)
  {
    SellAllKeys(v, items, ids, now);
    if items != [] {
      var init := items[..|items| - 1];
      var it := items[|items| - 1];
      var u := SellAll(v, init, ids, now);
      SellAllFirst(v, init, ids, now, i);
      SellAllKeys(v, init, ids, now);
      SellStep(u, it, ids(|init|), now);
      SameKeysFind(u.snap, v.snap, it.productId);
    }
  }

  /** The snapshot part of a sale, at any other record, or at a first record whose
      product no item mentions: the record is untouched. */
  lemma {:induction false} SellAllUntouched(v: StockView, items: seq<SaleLine>, ids: nat -> RecordId, now: Instant, i: nat)
    requires i < |v.snap|
    requires FindFirst(v.snap, ProductIs(v.snap[i].productId)) != Some(i) || !Mentions(items, v.snap[i].productId)
    ensures i < |SellAll(v, items, ids, now).snap| && SellAll(v, items, ids, now).snap[i] == v.snap[i]
  {
    SellAllKeys(v, items, ids, now);
    if items != [] {
      var init := items[..|items| - 1];
      var it := items[|items| - 1];
      var p := v.snap[i].productId;
      var u := SellAll(v, init, ids, now);
      if !Mentions(items, p) {
        assert forall j :: 0 <= j < |init| ==> init[j] == items[j];
        assert !Mentions(init, p);
      }
      SellAllUntouched(v, init, ids, now, i);
      SellAllKeys(v, init, ids, now);
      SellStep(u, it, ids(|init|), now);
      SameKeysFind(u.snap, v.snap, it.productId);
    }
  }

  /** Products of `items` that have no record in `snap`, counted in order. */
  function CountUnrecorded(snap: seq<StockRecord>, items: seq<SaleLine>): nat {
    if items == [] then 0
    else
      CountUnrecorded(snap, items[..|items| - 1])
      + (if FindFirst(snap, ProductIs(items[|items| - 1].productId)).None? then 1 else 0)
  }

  /** The added part of a sale: one new record per item whose product had no record
      (two items of such a product add two records, since the snapshot is not
      refreshed), each holding 0 when quantities are positive, stamped with the sale
      time. */
  lemma {:induction false} SellAllAdded(v: StockView, items: seq<SaleLine>, ids: nat -> RecordId, now: Instant)
    requires v.added == []
    requires forall i :: 0 <= i < |items| ==> items[i].quantity > 0
    ensures var w := SellAll(v, items, ids, now);
      && |w.added| == CountUnrecorded(v.snap, items)
      && (forall j :: 0 <= j < |w.added| ==>
            w.added[j].quantity == 0 && w.added[j].updatedAt == now
            && FindFirst(v.snap, ProductIs(w.added[j].productId)).None?)
  {
    if items != [] {
      var init := items[..|items| - 1];
      var it := items[|items| - 1];
      var u := SellAll(v, init, ids, now);
      SellAllAdded(v, init, ids, now);
      SellAllKeys(v, init, ids, now);
      SellStep(u, it, ids(|init|), now);
      SameKeysFind(u.snap, v.snap, it.productId);
    }
  }

  /** After a sale with kept items, the first record of a product mentioned by the items
      holds `max(0, old - total quantity of the product)`, so it is never negative. */
  lemma {:induction false} SaleStockAt(estoque: seq<StockRecord>, items: seq<SaleLine>, ids: nat -> RecordId, now: Instant, i: nat)
    requires forall k :: 0 <= k < |items| ==> Kept(items[k])
    requires i < |estoque| && Mentions(items, estoque[i].productId)
    requires FindFirst(estoque, ProductIs(estoque[i].productId)) == Some(i)
    ensures i < |SellAll(StockView(estoque, []), items, ids, now).snap|
    ensures SellAll(StockView(estoque, []), items, ids, now).snap[i].quantity
         == Max(0, estoque[i].quantity - QuantityOf(items, estoque[i].productId))
  {
    var v := StockView(estoque, []);
    var w := SellAll(v, items, ids, now);
    SellAllFirst(v, items, ids, now, i);
    assert w.snap[i].quantity == ClampAll(estoque[i].quantity, items, estoque[i].productId);
    ClampAllIsMax(estoque[i].quantity, items, estoque[i].productId);
  }

  /** Write `j` of the sale's stock loop fails: its request fails
      (`fault == Some(1 + j)`), or it adds a record for a product the snapshot lacks and
      the generated key is already in the store. A put of a found record always works. */
  predicate WriteFailsAt(estoque: seq<StockRecord>, items: seq<SaleLine>, ids: nat -> RecordId, now: Instant,
                         fault: Option<nat>, j: nat)
    requires j < |items|
  {
    var v := SellAll(StockView(estoque, []), items[..j], ids, now);
    fault == Some(1 + j)
    || (FindFirst(v.snap, ProductIs(items[j].productId)).None? && Lookup(Persisted(v), ids(j)).Some?)
  }

  /** The first `n` writes of the stock loop succeed. */
  predicate WritesSucceed(estoque: seq<StockRecord>, items: seq<SaleLine>, ids: nat -> RecordId, now: Instant,
                          fault: Option<nat>, n: nat)
    requires n <= |items|
  {
    forall j :: 0 <= j < n ==> !WriteFailsAt(estoque, items, ids, now, fault, j)
  }

  lemma WritesSucceedNext(estoque: seq<StockRecord>, items: seq<SaleLine>, ids: nat -> RecordId, now: Instant,
                          fault: Option<nat>, k: nat)
    requires k < |items| && WritesSucceed(estoque, items, ids, now, fault, k)
    requires !WriteFailsAt(estoque, items, ids, now, fault, k)
    ensures WritesSucceed(estoque, items, ids, now, fault, k + 1)
  {
  }

  /** `WriteFailsAt` in terms of the loop's current view. */
  lemma WriteFailsAtView(estoque: seq<StockRecord>, items: seq<SaleLine>, ids: nat -> RecordId, now: Instant,
                         fault: Option<nat>, k: nat, view: StockView)
    requires k < |items| && view == SellAll(StockView(estoque, []), items[..k], ids, now)
    ensures WriteFailsAt(estoque, items, ids, now, fault, k) <==>
      fault == Some(1 + k) || (FindFirst(view.snap, ProductIs(items[k].productId)).None? && Lookup(Persisted(view), ids(k)).Some?)
  {
  }

  /** Every record the sale adds carries one of the generated ids of its items. */
  lemma {:induction false} AddedIds(v: StockView, items: seq<SaleLine>, ids: nat -> RecordId, now: Instant)
    requires v.added == []
    ensures forall r :: r in SellAll(v, items, ids, now).added ==> exists j :: 0 <= j < |items| && r.id == ids(j)
  {
    if items != [] {
      var init := items[..|items| - 1];
      AddedIds(v, init, ids, now);
      SellStep(SellAll(v, init, ids, now), items[|items| - 1], ids(|init|), now);
    }
  }

  /** With no failing request and generated ids that are new to the store and pairwise
      distinct, every stock write of the sale succeeds. */
  lemma FreshIdsSucceed(estoque: seq<StockRecord>, items: seq<SaleLine>, ids: nat -> RecordId, now: Instant,
                        fault: Option<nat>)
    requires fault.None? || fault.value == 0 || fault.value > |items|
    requires forall j :: 0 <= j < |items| ==> Lookup(estoque, ids(j)).None?
    requires forall j, k :: 0 <= j < k < |items| ==> ids(j) != ids(k)
    ensures WritesSucceed(estoque, items, ids, now, fault, |items|)
  {
    forall j | 0 <= j < |items| ensures !WriteFailsAt(estoque, items, ids, now, fault, j) {
      var v0 := StockView(estoque, []);
      var v := SellAll(v0, items[..j], ids, now);
      SellAllKeys(v0, items[..j], ids, now);
      AddedIds(v0, items[..j], ids, now);
      assert Lookup(estoque, ids(j)).None?;
      var all := Persisted(v);
      forall i | 0 <= i < |all| ensures !IdIs(ids(j))(all[i]) {
        if i < |v.snap| {
          assert all[i] == v.snap[i];
          assert !IdIs(ids(j))(estoque[i]);
        } else {
          assert all[i] == v.added[i - |v.snap|];
          assert all[i] in v.added;
          var jj :| 0 <= jj < |items[..j]| && all[i].id == ids(jj);
        }
      }
      FindFirstUnique(all, IdIs(ids(j)), None);
    }
  }

  // ---------------------------------------------------------------------------
  // The stock modal and the stock entry: "record ? put : add"
  // ---------------------------------------------------------------------------

  /** `record ? Number(record.quantity) : 0` with `record = find(productId)`. */
  function CurrentQuantity(records: seq<StockRecord>, p: string): (q: int)
    ensures FindFirst(records, ProductIs(p)).None? ==> q == 0
  {
    match FindFirst(records, ProductIs(p))
    case None => 0
    case Some(i) => records[i].quantity
  }

  /** The store after writing quantity `q` for product `p`: the first record of `p` is
      put back with `q`, or a new record with key `newId` is added. */
  function SetStock(records: seq<StockRecord>, p: string, q: int, newId: RecordId, now: Instant): (r: seq<StockRecord>)
    ensures |r| == |records| + (if FindFirst(records, ProductIs(p)).None? then 1 else 0)
    ensures forall i :: 0 <= i < |records| ==>
      r[i].id == records[i].id && r[i].productId == records[i].productId
      && (records[i].productId != p ==> r[i] == records[i])
  {
    match FindFirst(records, ProductIs(p))
    case Some(i) => records[i := records[i].(quantity := q, updatedAt := now)]
    case None => records + [StockRecord(newId, p, q, now)]
  }

  /** After writing, the product's stock (as the handlers read it back) is `q`, and
      every other product's stock is unchanged. */
  lemma SetStockEffect(records: seq<StockRecord>, p: string, q: int, newId: RecordId, now: Instant, other: string)
    ensures CurrentQuantity(SetStock(records, p, q, newId, now), p) == q
    ensures other != p ==> CurrentQuantity(SetStock(records, p, q, newId, now), other) == CurrentQuantity(records, other)
  {
    var r := SetStock(records, p, q, newId, now);
    match FindFirst(records, ProductIs(p))
    case Some(i) =>
      FindFirstCongruent(r, records, ProductIs(p));
      FindFirstCongruent(r, records, ProductIs(other));
    case None =>
      FindFirstAppend(records, StockRecord(newId, p, q, now), ProductIs(p));
      FindFirstAppend(records, StockRecord(newId, p, q, now), ProductIs(other));
  }

  /** The write `SetStock` performs is the handler's `dbAPI.put` or `dbAPI.add`. */
  lemma SetStockIsWrite(records: seq<StockRecord>, p: string, q: int, newId: RecordId, now: Instant)
    requires ValidRecords(records)
    ensures FindFirst(records, ProductIs(p)).Some? ==>
      PutRecord(records, records[FindFirst(records, ProductIs(p)).value].(quantity := q, updatedAt := now))
        == Ok(SetStock(records, p, q, newId, now))
    ensures FindFirst(records, ProductIs(p)).None? && Lookup(records, newId).None? ==>
      AddRecord(records, StockRecord(newId, p, q, now), newId) == Ok(SetStock(records, p, q, newId, now))
  {
    match FindFirst(records, ProductIs(p))
    case Some(i) =>
      PutAt(records, i, records[i].(quantity := q, updatedAt := now));
    case None =>
  }

  datatype StockSave = ProductMissing | StockSaveFailed | StockSaved(quantity: int)

  datatype EntryOutcome = InvalidQuantity | EntryFailed | EntrySaved(quantity: int)

  function OutcomeQuantity(o: StockSave): int {
    if o.StockSaved? then o.quantity else 0
  }

  // ---------------------------------------------------------------------------
  // refreshDashboard and confirmAndDelete
  // ---------------------------------------------------------------------------

  function InStock(): StockRecord -> bool {
    (r: StockRecord) => r.quantity > 0
  }

  predicate SameDay(s: LocalSale, today: Date) {
    s.date.date == today
  }

  datatype LocalDashboard = LocalDashboard(totalProdutos: nat, produtosEstoque: nat, vendasHoje: nat, totalClientes: nat)

  lemma {:induction false} CountSeqConcat(a: seq<StockRecord>, b: seq<StockRecord>, p: StockRecord -> bool)
    ensures CountSeq(a + b, p) == CountSeq(a, p) + CountSeq(b, p)
  {
    if a == [] {
      assert a + b == b;
    } else {
      assert (a + b)[0] == a[0];
      assert (a + b)[1..] == a[1..] + b;
      CountSeqConcat(a[1..], b, p);
    }
  }

  /** Counting is monotone under an index-wise implication. */
  lemma {:induction false} CountSeqMonotone(a: seq<StockRecord>, b: seq<StockRecord>, p: StockRecord -> bool)
    requires |a| == |b| && forall i :: 0 <= i < |a| ==> p(a[i]) ==> p(b[i])
    ensures CountSeq(a, p) <= CountSeq(b, p)
  {
    if a != [] {
      assert forall i :: 0 <= i < |a| - 1 ==> a[1..][i] == a[i + 1] && b[1..][i] == b[i + 1];
      CountSeqMonotone(a[1..], b[1..], p);
    }
  }

  /** One item never raises the number of records in stock. */
  lemma {:induction false} SellInStock(v: StockView, it: SaleLine, newId: RecordId, now: Instant)
    requires it.quantity > 0
    ensures CountSeq(Persisted(Sell(v, it, newId, now)), InStock()) <= CountSeq(Persisted(v), InStock())
  {
    var w := Sell(v, it, newId, now);
    SellStep(v, it, newId, now);
    match FindFirst(v.snap, ProductIs(it.productId))
    case Some(i) =>
      assert Persisted(w) == Persisted(v)[i := w.snap[i]];
      CountSeqMonotone(Persisted(w), Persisted(v), InStock());
    case None =>
      assert Persisted(w) == Persisted(v) + [w.added[|v.added|]];
      CountSeqConcat(Persisted(v), [w.added[|v.added|]], InStock());
  }

  /** A sale never raises the dashboard's "produtos em estoque": it only lowers quantities
      (clamped at 0) and adds records holding 0. */
  lemma {:induction false} InStockAfterSale(v: StockView, items: seq<SaleLine>, ids: nat -> RecordId, now: Instant)
    requires forall i :: 0 <= i < |items| ==> Kept(items[i])
    ensures CountSeq(Persisted(SellAll(v, items, ids, now)), InStock()) <= CountSeq(Persisted(v), InStock())
  {
    if items != [] {
      InStockAfterSale(v, items[..|items| - 1], ids, now);
      SellInStock(SellAll(v, items[..|items| - 1], ids, now), items[|items| - 1], ids(|items| - 1), now);
    }
  }

  datatype StoreName = ProductsStore | CategoriesStore | ClientsStore | FornecedoresStore | EstoqueStore | VendasStore

  datatype DeleteTarget = DeleteTarget(store: StoreName, noun: string)

  /** The type table of `confirmAndDelete`; unknown types have no entry. */
  function TargetOf(t: string): (r: Option<DeleteTarget>)
    ensures r.Some? <==> t == "product" || t == "category" || t == "client" || t == "fornecedor" || t == "estoque" || t == "venda"
    ensures t == "fornecedor" ==> r == Some(DeleteTarget(FornecedoresStore, "fornecedor"))
    ensures t == "estoque" ==> r == Some(DeleteTarget(EstoqueStore, "registro de estoque"))
  {
    match t
    case "product" => Some(DeleteTarget(ProductsStore, "produto"))
    case "category" => Some(DeleteTarget(CategoriesStore, "categoria"))
    case "client" => Some(DeleteTarget(ClientsStore, "cliente"))
    case "fornecedor" => Some(DeleteTarget(FornecedoresStore, "fornecedor"))
    case "estoque" => Some(DeleteTarget(EstoqueStore, "registro de estoque"))
    case "venda" => Some(DeleteTarget(VendasStore, "venda"))
    case _ => None
  }

  /** Distinct types name distinct stores. */
  lemma TargetOfInjective(t1: string, t2: string)
    requires TargetOf(t1).Some? && TargetOf(t2).Some? && t1 != t2
    ensures TargetOf(t1).value.store != TargetOf(t2).value.store
  {
  }

  /** `store.delete(k)` on `estoque`: the record under that key, if any, goes away. */
  function RemoveKey(records: seq<StockRecord>, k: string): (r: seq<StockRecord>)
    ensures forall x :: x in r <==> x in records && x.id != k
    ensures |r| <= |records|
    ensures ValidRecords(records) ==> ValidRecords(r)
  {
    if records == [] then []
    else
      assert forall x :: x in records <==> x == records[0] || x in records[1..];
      var rest := RemoveKey(records[1..], k);
      if records[0].id == k then rest
      else
        KeepFirstValid(records, rest);
        [records[0]] + rest
  }

  /** Keeping the first record in front of records taken from the rest keeps the keys
      distinct and non-empty. */
  lemma KeepFirstValid(records: seq<StockRecord>, rest: seq<StockRecord>)
    requires records != []
    requires forall x :: x in rest ==> x in records[1..]
    ensures ValidRecords(records) && ValidRecords(rest) ==> ValidRecords([records[0]] + rest)
  {
    if ValidRecords(records) && ValidRecords(rest) {
      var r := [records[0]] + rest;
      forall i, j | 0 <= i < j < |r| ensures r[i].id != r[j].id {
        assert r[j] == rest[j - 1];
        if i == 0 {
          assert r[j] in rest;
          var k :| 0 <= k < |records[1..]| && records[1..][k] == r[j];
          assert records[k + 1] == r[j];
        } else {
          assert r[i] == rest[i - 1];
        }
      }
      forall i | 0 < i < |r| ensures r[i].id != "" {
        assert r[i] == rest[i - 1];
      }
    }
  }

  // ---------------------------------------------------------------------------
  // The store
  // ---------------------------------------------------------------------------

  class LocalStore {
    var products: map<string, LocalProduct>
    var categories: map<string, LocalEntity>
    var clients: map<string, LocalEntity>
    var fornecedores: map<string, LocalEntity>
    var estoque: seq<StockRecord>
    var vendas: map<string, LocalSale>

    constructor ()
      ensures products == map[] && categories == map[] && clients == map[] && fornecedores == map[]
      ensures estoque == [] && vendas == map[]
    {
      products, categories, clients, fornecedores := map[], map[], map[], map[];
      estoque, vendas := [], map[];
    }

    /** The save handler of the sale modal. The sale is stored first; each stock write
        afterwards is its own request, so a failing one leaves the sale and the earlier
        writes in place. */
    method SaveSale(clientId: string, rows: seq<SaleLine>, saleId: RecordId, ids: nat -> RecordId,
                    now: Instant, fault: Option<nat>) returns (outcome: SaleOutcome)
      requires ValidRecords(estoque)
      modifies this`vendas, this`estoque
      ensures ValidRecords(estoque)
      ensures outcome == NoValidItems <==> ValidLines(rows) == []
      ensures outcome == SaleWriteFailed <==> ValidLines(rows) != [] && (fault == Some(0) || saleId in old(vendas))
      ensures outcome == NoValidItems || outcome == SaleWriteFailed ==> vendas == old(vendas) && estoque == old(estoque)
      ensures outcome.StockWriteFailed? || outcome == Saved ==>
        vendas == old(vendas)[saleId := NewSale(saleId, clientId, ValidLines(rows), SaleTotal(ValidLines(rows), products), now)]
      ensures outcome.StockWriteFailed? ==>
        && outcome.step < |ValidLines(rows)|
        && WritesSucceed(old(estoque), ValidLines(rows), ids, now, fault, outcome.step)
        && WriteFailsAt(old(estoque), ValidLines(rows), ids, now, fault, outcome.step)
        && estoque == Persisted(SellAll(StockView(old(estoque), []), ValidLines(rows)[..outcome.step], ids, now))
      ensures outcome == Saved <==>
        && ValidLines(rows) != [] && fault != Some(0) && saleId !in old(vendas)
        && WritesSucceed(old(estoque), ValidLines(rows), ids, now, fault, |ValidLines(rows)|)
      ensures outcome == Saved ==>
        && estoque == Persisted(SellAll(StockView(old(estoque), []), ValidLines(rows), ids, now))
        && (fault.None? || fault.value > |ValidLines(rows)|)
    {
      var items := ValidLines(rows);
      if |items| == 0 {
        return NoValidItems;
      }
      var stored := StoreSale(clientId, items, saleId, now, fault == Some(0));
      if !stored {
        return SaleWriteFailed;
      }
      var failedAt := UpdateStock(items, ids, now, fault);
      if failedAt.Some? {
        return StockWriteFailed(failedAt.value);
      }
      return Saved;
    }

    /** The total and `dbAPI.add('vendas', venda)`: refused when the request fails or the
        generated key is taken. */
    method StoreSale(clientId: string, items: seq<SaleLine>, saleId: RecordId, now: Instant, fails: bool)
      returns (stored: bool)
      modifies this`vendas
      ensures stored <==> !fails && saleId !in old(vendas)
      ensures stored ==> vendas == old(vendas)[saleId := NewSale(saleId, clientId, items, SaleTotal(items, products), now)]
      ensures !stored ==> vendas == old(vendas)
    {
      var total := ComputeTotal(items, products);
      var venda := NewSale(saleId, clientId, items, total, now);
      if fails || saleId in vendas {
        return false;
      }
      vendas := vendas[saleId := venda];
      return true;
    }

    /** The stock loop of the sale save: one write per item, against the snapshot read
        once before the loop. `fault == Some(1 + k)` makes the write of item k fail; a
        failed write ends the loop with the earlier writes kept. */
    method UpdateStock(items: seq<SaleLine>, ids: nat -> RecordId, now: Instant, fault: Option<nat>)
      returns (failedAt: Option<nat>)
      requires ValidRecords(estoque)
      modifies this`estoque
      ensures ValidRecords(estoque)
      ensures failedAt.Some? ==>
        && failedAt.value < |items|
        && WritesSucceed(old(estoque), items, ids, now, fault, failedAt.value)
        && WriteFailsAt(old(estoque), items, ids, now, fault, failedAt.value)
        && estoque == Persisted(SellAll(StockView(old(estoque), []), items[..failedAt.value], ids, now))
      ensures failedAt.None? ==>
        && WritesSucceed(old(estoque), items, ids, now, fault, |items|)
        && estoque == Persisted(SellAll(StockView(old(estoque), []), items, ids, now))
        && (fault.None? || fault.value == 0 || fault.value > |items|)
    {
      var estoque0 := estoque;
      var view := StockView(estoque, []);
      var k := 0;
      while k < |items|
        invariant 0 <= k <= |items|
        invariant view == SellAll(StockView(estoque0, []), items[..k], ids, now)
        invariant estoque == Persisted(view)
        invariant ValidRecords(estoque)
        invariant fault.None? || fault.value == 0 || fault.value > k
        invariant WritesSucceed(estoque0, items, ids, now, fault, k)
      {
        var ok := WriteStep(estoque0, items, ids, now, fault, k, view);
        if !ok {
          return Some(k);
        }
        WritesSucceedNext(estoque0, items, ids, now, fault, k);
        view := SellAll(StockView(estoque0, []), items[..k + 1], ids, now);
        k := k + 1;
      }
      assert items[..k] == items;
      return None;
    }

    /** Item k of the stock loop, written against the view after the first k items. */
    method WriteStep(estoque0: seq<StockRecord>, items: seq<SaleLine>, ids: nat -> RecordId, now: Instant,
                     fault: Option<nat>, k: nat, view: StockView) returns (ok: bool)
      requires k < |items| && view == SellAll(StockView(estoque0, []), items[..k], ids, now)
      requires estoque == Persisted(view) && ValidRecords(estoque)
      modifies this`estoque
      ensures ok <==> !WriteFailsAt(estoque0, items, ids, now, fault, k)
      ensures ok ==>
        && estoque == Persisted(SellAll(StockView(estoque0, []), items[..k + 1], ids, now))
        && ValidRecords(estoque) && (fault.None? || fault.value != 1 + k)
      ensures !ok ==> estoque == old(estoque)
    {
      SellAllNext(StockView(estoque0, []), items, ids, now, k);
      WriteFailsAtView(estoque0, items, ids, now, fault, k, view);
      ok := WriteItem(view, items[k], ids(k), now, fault == Some(1 + k));
    }

    /** One pass of the stock loop: `rec ? put(rec after the sale) : add(new record)`.
        `fails` makes the request fail; an add also fails when the key is taken. */
    method WriteItem(view: StockView, it: SaleLine, newId: RecordId, now: Instant, fails: bool) returns (ok: bool)
      requires estoque == Persisted(view) && ValidRecords(estoque)
      modifies this`estoque
      ensures ok ==> estoque == Persisted(Sell(view, it, newId, now)) && ValidRecords(estoque)
      ensures !ok ==> estoque == old(estoque)
      ensures ok <==> !fails && (FindFirst(view.snap, ProductIs(it.productId)).Some? || Lookup(old(estoque), newId).None?)
    {
      var next := Sell(view, it, newId, now);
      SellWrite(view, it, newId, now);
      if fails {
        return false;
      }
      match FindFirst(view.snap, ProductIs(it.productId)) {
        case Some(i) =>
          var rec := view.snap[i].(quantity := Max(0, view.snap[i].quantity - it.quantity), updatedAt := now);
          assert rec == next.snap[i];
          estoque := PutRecord(estoque, rec).value;
        case None =>
          var rec := StockRecord(newId, it.productId, Max(0, -it.quantity), now);
          assert rec == next.added[|view.added|];
          var r := AddRecord(estoque, rec, newId);
          if r.Err? {
            return false;
          }
          estoque := r.value;
      }
      return true;
    }

    /** The save of `openStockModalForProduct`: the replacement value (if given) or the
        current quantity, plus the added value (if given), written to the product's
        record or to a new one. */
    method SaveStockForProduct(productId: string, newQty: Option<int>, addQty: Option<int>,
                               newId: RecordId, now: Instant, fault: bool) returns (outcome: StockSave)
      requires ValidRecords(estoque)
      modifies this`estoque
      ensures ValidRecords(estoque)
      ensures outcome == ProductMissing <==> productId !in products
      ensures outcome.StockSaved? ==>
        && outcome.quantity == (if newQty.Some? then newQty.value else CurrentQuantity(old(estoque), productId))
                               + (if addQty.Some? then addQty.value else 0)
        && estoque == SetStock(old(estoque), productId, outcome.quantity, newId, now)
      ensures !outcome.StockSaved? ==> estoque == old(estoque)
      ensures productId in products && !fault && Lookup(old(estoque), newId).None? ==> outcome.StockSaved?
      ensures outcome.StockSaved? <==>
        productId in products && !fault
        && (FindFirst(old(estoque), ProductIs(productId)).Some? || Lookup(old(estoque), newId).None?)
    {
      if productId !in products {
        return ProductMissing;
      }
      var currentQty := CurrentQuantity(estoque, productId);
      var finalQty := currentQty;
      if newQty.Some? {
        finalQty := newQty.value;
      }
      if addQty.Some? {
        finalQty := finalQty + addQty.value;
      }
      if fault {
        return StockSaveFailed;
      }
      var saved := WriteQuantity(productId, finalQty, newId, now);
      if !saved {
        return StockSaveFailed;
      }
      return StockSaved(finalQty);
    }

    /** The stock-entry handler: a quantity of 0 or less is refused ("Quantidade
        inválida."); otherwise it is added to the product's current stock. */
    method AddStockEntry(productId: string, qty: int, newId: RecordId, now: Instant, fault: bool)
      returns (outcome: EntryOutcome)
      requires ValidRecords(estoque)
      modifies this`estoque
      ensures ValidRecords(estoque)
      ensures qty <= 0 <==> outcome == InvalidQuantity
      ensures outcome.EntrySaved? ==>
        && outcome.quantity == CurrentQuantity(old(estoque), productId) + qty
        && estoque == SetStock(old(estoque), productId, outcome.quantity, newId, now)
      ensures !outcome.EntrySaved? ==> estoque == old(estoque)
      ensures qty > 0 && !fault && Lookup(old(estoque), newId).None? ==> outcome.EntrySaved?
      ensures outcome.EntrySaved? <==>
        qty > 0 && !fault
        && (FindFirst(old(estoque), ProductIs(productId)).Some? || Lookup(old(estoque), newId).None?)
    {
      if qty == 0 || qty <= 0 {
        return InvalidQuantity;
      }
      if fault {
        return EntryFailed;
      }
      var finalQty := CurrentQuantity(estoque, productId) + qty;
      var saved := WriteQuantity(productId, finalQty, newId, now);
      if !saved {
        return EntryFailed;
      }
      return EntrySaved(finalQty);
    }

    /** `record ? dbAPI.put('estoque', record) : dbAPI.add('estoque', {...})`. */
    method WriteQuantity(productId: string, q: int, newId: RecordId, now: Instant) returns (saved: bool)
      requires ValidRecords(estoque)
      modifies this`estoque
      ensures ValidRecords(estoque)
      ensures saved ==> estoque == SetStock(old(estoque), productId, q, newId, now)
      ensures !saved ==> estoque == old(estoque)
      ensures saved <==> FindFirst(old(estoque), ProductIs(productId)).Some? || Lookup(old(estoque), newId).None?
    {
      SetStockIsWrite(estoque, productId, q, newId, now);
      match FindFirst(estoque, ProductIs(productId)) {
        case Some(i) =>
          var rec := estoque[i].(quantity := q, updatedAt := now);
          PutRecordEffect(estoque, rec, "");
          estoque := PutRecord(estoque, rec).value;
          return true;
        case None =>
          var r := AddRecord(estoque, StockRecord(newId, productId, q, now), newId);
          if r.Err? {
            return false;
          }
          AddRecordEffect(estoque, StockRecord(newId, productId, q, now), newId, "");
          estoque := r.value;
          return true;
      }
    }

    /** `refreshDashboard`: products and clients counted, records with quantity > 0
        counted (not products: two records of one product count twice), and sales whose
        local calendar day is today. */
    function DashboardOn(today: Date): (d: LocalDashboard)
      reads this
      ensures d.totalProdutos == |products| && d.totalClientes == |clients|
      ensures d.produtosEstoque <= |estoque| && d.vendasHoje <= |vendas|
      ensures d.produtosEstoque == 0 <==> forall i :: 0 <= i < |estoque| ==> estoque[i].quantity <= 0
    {
      LocalDashboard(|products|, CountSeq(estoque, InStock()),
                     CountMap(vendas, (s: LocalSale) => SameDay(s, today)), |clients|)
    }

    /** `confirmAndDelete`: an unknown type or a declined confirmation changes nothing;
        otherwise the key leaves the store the type names. */
    method ConfirmAndDelete(t: string, id: string, confirmed: bool, fault: bool) returns (deleted: bool)
      requires ValidRecords(estoque)
      modifies this`products, this`categories, this`clients, this`fornecedores, this`estoque, this`vendas
      ensures ValidRecords(estoque)
      ensures deleted <==> TargetOf(t).Some? && confirmed && !fault
      ensures var s := if deleted then TargetOf(t).value.store else VendasStore;
        && products == (if deleted && s == ProductsStore then old(products) - {id} else old(products))
        && categories == (if deleted && s == CategoriesStore then old(categories) - {id} else old(categories))
        && clients == (if deleted && s == ClientsStore then old(clients) - {id} else old(clients))
        && fornecedores == (if deleted && s == FornecedoresStore then old(fornecedores) - {id} else old(fornecedores))
        && estoque == (if deleted && s == EstoqueStore then RemoveKey(old(estoque), id) else old(estoque))
        && vendas == (if deleted && s == VendasStore then old(vendas) - {id} else old(vendas))
    {
      var entry := TargetOf(t);
      if entry.None? || !confirmed || fault {
        return false;
      }
      match entry.value.store {
        case ProductsStore => products := products - {id};
        case CategoriesStore => categories := categories - {id};
        case ClientsStore => clients := clients - {id};
        case FornecedoresStore => fornecedores := fornecedores - {id};
        case EstoqueStore => estoque := RemoveKey(estoque, id);
        case VendasStore => vendas := vendas - {id};
      }
      return true;
    }
  }

  /** A saved sale dated today adds one to "vendas hoje". */
  lemma SalesTodayAfterSave(vendas: map<string, LocalSale>, sale: LocalSale, today: Date)
    requires sale.id !in vendas
    ensures CountMap(vendas[sale.id := sale], (s: LocalSale) => SameDay(s, today))
         == CountMap(vendas, (s: LocalSale) => SameDay(s, today)) + (if sale.date.date == today then 1 else 0)
  {
    CountMapInsert(vendas, sale.id, sale, (s: LocalSale) => SameDay(s, today));
  }
}
