# GELP retail management: a Dafny model

GELP is a small retail management tool for a shop. It keeps products, categories,
clients, suppliers, stock and sales. It exists in two versions:

- **Local version.** A browser application (`js/script.js`) keeps everything in
  IndexedDB object stores (`products`, `categories`, `clients`, `fornecedores`,
  `estoque`, `vendas`). `js/models.js` adds entity classes with `validate()` rules and
  the CPF utilities of `FormatUtils`.
- **Web version.** A front-end (`GELPK_frontend/js/script.js`) talks over HTTP to an
  Express server backed by MySQL (`GELPK_backend/server.js`).

This project models the logic of both versions and proves properties of it:

- the validators and the CPF check digits;
- the two ways a sale is registered and its stock moved:
  - the transactional SQL route, with rollback;
  - the local handler, which stores the sale first and clamps stock at zero;
- the stock upserts, replacements and entries;
- the dashboard counts and the sale detail join;
- the 404 rule of the update and delete routes;
- the small front-end helpers: `escapeHtml`, `getLabel`/`getEndpoint`, the
  `apiRequest` reply classification, and the input gates of the forms.

Modules, one per source file (plus a shared one):

| module | file | models |
|---|---|---|
| `Common` | `common.dfy` | Option/Result, dates, JavaScript white space and `trim`, `find` and `filter(...).length` over sequences, `COUNT(*)` over maps |
| `Models` | `models.dfy` | `js/models.js`: entities, `validate()`, `ItemVenda` (a class: its subtotal is updated in place), `cleanCPF`/`formatCPF`/`isValidCPF` |
| `Html` | `html.dfy` | `escapeHtml` on string arguments, where the two front-ends agree, with a decoder proving it loses nothing |
| `Backend` | `backend.dfy` | `GELPK_backend/server.js`: the tables as maps, the class `SqlStore` with the write routes, the read routes as functions |
| `Legacy` | `legacy.dfy` | `js/script.js`: the `estoque` store as a sequence in the model's order, the `put`/`add` rules, the class `LocalStore` with the sale save, stock modal, stock entry, dashboard and delete |
| `Frontend` | `frontend.dfy` | `GELPK_frontend/js/script.js`: lookup tables, `apiRequest`, the save URL, the stock and sale forms, composed with the backend routes |

How the model treats time, failures and money:

- The clock and the local id generator are parameters: `now`, `today`, `saleId`, and
  `ids: nat -> RecordId`. MySQL's `insertId` for a sale is the store's own
  auto-increment counter `nextSaleId`, which `Valid()` keeps above every sale id.
- A failing SQL statement or IndexedDB request is an explicit input (`fault`), so
  rollback, partial writes and unanswered requests can be stated.
- Money is integer cents.

## Model

| member | source | states |
|---|---|---|
| Common.TrimStart | js/models.js:18 | the result is a suffix of the input that does not start with white space, and only white space was removed |
| Common.TrimEnd | js/models.js:18 | the result is a prefix of the input that does not end with white space, and only white space was removed |
| Common.TrimEmptyIffBlank | js/models.js:18 | `s.trim() === ''` holds exactly when `s` is white space only |
| Common.Trim | js/models.js:18 | `trim()` is no longer than its input, and a non-empty result starts and ends with a non-space |
| Common.FindFirst | js/script.js:656 | `Array.prototype.find`: the index found satisfies the predicate and no earlier element does; `None` means no element does |
| Common.CountSeq | js/script.js:269 | `filter(p).length` is at most the length, and is 0 exactly when no element satisfies `p` |
| Common.CountMapInsert | GELPK_backend/server.js:235 | inserting under a new key raises a `COUNT(*) ... WHERE` by one exactly when the new row qualifies |
| Common.CountMapReplace | GELPK_backend/server.js:233 | replacing one row changes the count by that row's change only |
| Models.Report | js/models.js:18-20 | one `if (...) errors.push(m)`: `m` is reported exactly when the check fails, and nothing else is |
| Models.IsValidEmail | js/models.js:33-36 | an accepted e-mail has at least five characters and no white space; its exact language is stated by the two lemmas below |
| Models.EmailShapeAccepted | js/models.js:33-36 | every `a@b.c`, with `a`, `b`, `c` non-empty and free of white space and '@', is accepted |
| Models.EmailAcceptedHasShape | js/models.js:33-36 | every accepted e-mail splits as such an `a@b.c` (the converse) |
| Models.ClienteErrors | js/models.js:15-31 | each message appears exactly when its check fails (missing or blank CPF, missing or blank name, non-empty invalid e-mail), in check order; no errors exactly when all checks pass |
| Models.CategoriaErrors | js/models.js:46-54 | valid exactly when the name is present and not blank; otherwise the single message |
| Models.FornecedorErrors | js/models.js:66-78 | name-required and e-mail-invalid messages exactly when their checks fail, in check order |
| Models.ProdutoErrors | js/models.js:96-112 | name, category and price messages exactly when their checks fail, in order; a price of 0 is reported, as `!preco` is true for 0 |
| Models.EstoqueErrors | js/models.js:123-135 | an error exactly when the product is missing or the quantity is negative; quantity 0 is valid; messages in order |
| Models.EntradaEstoqueErrors | js/models.js:150-166 | product, quantity (must be > 0) and cost price (0 rejected) messages exactly when their checks fail, in order |
| Models.VendaErrors | js/models.js:178-191 | negative-total and invalid-status messages exactly when the total is negative or the status is not `Concluida`/`Pendente`/`Cancelada`, in order |
| Models.StoredSaleStatusFailsValidation | js/models.js:185-188 | a sale with status `concluida`, the status both stores write, is reported as having an invalid status |
| Models.ItemVenda.constructor | js/models.js:195-202 | the fields are as given; without a subtotal, the subtotal is quantity times unit price |
| Models.ItemVenda.Errors | js/models.js:204-224 | sale, product, quantity (> 0) and unit price (0 rejected) messages exactly when their checks fail, in check order |
| Models.ItemVenda.CalculateSubtotal | js/models.js:227-230 | sets the subtotal to quantity times unit price and returns it |
| Models.CleanCPF | js/models.js:256-258 | the result consists of digits only and is no longer than the input |
| Models.CleanKeepsDigits | js/models.js:256-258 | the result is an ordered selection of the input that keeps every digit occurrence |
| Models.CleanOfDigits | js/models.js:256-258 | a string of digits is left unchanged |
| Models.CleanIdempotent | js/models.js:256-258 | cleaning twice equals cleaning once |
| Models.CleanFixedIffDigits | js/models.js:256-258 | a string is unchanged by cleaning exactly when it is all digits |
| Models.CleanConcat | js/models.js:256-258 | cleaning distributes over concatenation |
| Models.FirstRun | js/models.js:253 | the position the pattern matches at is the first position with eleven consecutive digits |
| Models.Dotted | js/models.js:253 | the replacement text has 14 characters, with '.' at 3 and 7 and '-' at 11 |
| Models.FormatCPF | js/models.js:252-254 | without an eleven-digit run the text is returned unchanged; with one, the result is three characters longer (two dots and a dash) |
| Models.FormatElevenDigits | js/models.js:252-254 | eleven digits are formatted as `ddd.ddd.ddd-dd` |
| Models.CleanAfterFormat | js/models.js:252-258 | for any input, cleaning the formatted text equals cleaning the input |
| Models.FormatThenClean | js/models.js:252-258 | eleven digits survive formatting and cleaning unchanged |
| Models.CheckDigit | js/models.js:271-272 | a check digit is always in 0..9 (the `=== 11` branch is dead) |
| Models.IsValidCPF | js/models.js:260-284 | the loops compute exactly the two modulus-11 check-digit conditions on the cleaned string; false when it is not 11 long or all its digits are equal |
| Models.CheckDigitsDetermined | js/models.js:267-281 | two valid CPFs with the same first nine digits are equal |
| Models.CompleteCpf | js/models.js:267-281 | completing nine digits gives eleven characters that start with them |
| Models.CompleteCpfValid | js/models.js:260-284 | nine digits completed with their check digits are accepted exactly when not all eleven digits are equal |
| Html.EscapeChar | js/script.js:1039 | each of the 5 special characters becomes a reference `&...;`; every other character is kept |
| Html.EscapeHtml | js/script.js:1038-1040 | the output is no shorter, and its only special character is the '&' of references |
| Html.UnescapeEscape | js/script.js:1038-1040 | decoding the escaped text gives the original back, so escaping is injective |
| Html.EscapeConcat | js/script.js:1038-1040 | escaping distributes over concatenation |
| Html.EscapeUnchangedIff | GELPK_frontend/js/script.js:66 | text is unchanged exactly when it has no special character; otherwise it grows |
| Html.DoubleEscapeDiffers | GELPK_frontend/js/script.js:66 | escaping is not idempotent: escaping again changes text that had a special character |
| Backend.NullIfEmpty | GELPK_backend/server.js:41 | `s \|\| null` maps a missing or empty string to NULL and keeps any other |
| Backend.NullIfZero | GELPK_backend/server.js:207 | `id \|\| null` maps a missing id or 0 to NULL and keeps any other |
| Backend.UpdateById | GELPK_backend/server.js:41-42 | no match exactly when the id is absent; otherwise same keys, the new row at the id, the other rows unchanged |
| Backend.DeleteById | GELPK_backend/server.js:46-47 | no match exactly when the id is absent; otherwise the id is removed and the other rows are kept |
| Backend.DeleteTwiceNotFound | GELPK_backend/server.js:45-49 | a second delete of the same id matches nothing (404) |
| Backend.Header | GELPK_backend/server.js:206-207 | the sale row carries the caller's total (not recomputed), status `concluida`, the current time and `clientId \|\| null` |
| Backend.LineItems | GELPK_backend/server.js:211-212 | one line item per request item, in order, with the sale id and the item's quantity, price and product |
| Backend.DecrementAll | GELPK_backend/server.js:210-213 | the item UPDATEs, each one `Backend.Decrement` (subtract from an existing row only), neither create nor remove a stock row |
| Backend.DecrementAllEffect | GELPK_backend/server.js:210-213 | the stock keys are unchanged; each row drops by the summed quantity of its product's items, with no lower bound |
| Backend.CommitSale | GELPK_backend/server.js:203-215 | the committed tables hold the new sale's header under its id, the same stock keys, and the old line items followed by one per request item |
| Backend.CommitSaleEffect | GELPK_backend/server.js:206-214 | a commit adds exactly one sale, appends the line items after the old ones, keeps the other sales and moves stock as stated above |
| Backend.StockCanGoNegative | GELPK_backend/server.js:210 | selling 5 units of a product with 2 in stock leaves -3 |
| Backend.SqlStore.RegisterSale | GELPK_backend/server.js:199-224 | 400 without change when items are missing or empty; 500 with all tables restored on any fault; otherwise 201 with a fresh id and the committed tables; the auto-increment advances once the header insert ran |
| Backend.SqlStore.PutStock | GELPK_backend/server.js:162-169 | the product's stock row becomes the given quantity and `now`, whether or not it existed; the other rows are unchanged; no reply and no change when the statement fails |
| Backend.Upsert | GELPK_backend/server.js:166-167 | `INSERT ... ON DUPLICATE KEY UPDATE`: keys gain the product, its row is the new one, and the other rows are unchanged |
| Backend.UpsertIdempotent | GELPK_backend/server.js:162-169 | repeating the same upsert changes nothing |
| Backend.InStockAfterUpsert | GELPK_backend/server.js:233 | after an upsert, the in-stock count moves by the change of that one row |
| Backend.JoinItems | GELPK_backend/server.js:189-193 | the detail holds exactly the items of that sale whose product exists, as many as such rows |
| Backend.SaleDetailOf | GELPK_backend/server.js:186-198 | 500 when the header query fails, and 500 when the items query fails for a known sale; 404 for an unknown id, otherwise the sale's id, date and total and the joined items; the client name is that client's name when the client exists, and NULL otherwise |
| Backend.LineItemsJoin | GELPK_backend/server.js:189 | joining the line items of a request gives that request's items whose product exists, in request order |
| Backend.DetailAfterCommit | GELPK_backend/server.js:186-198 | the detail of a committed sale shows the caller's total, the sale time and exactly its request items whose product exists |
| Backend.NextIdUnused | GELPK_backend/server.js:208 | in a valid store, no line item carries the next sale id |
| Backend.SalesTodayAfterCommit | GELPK_backend/server.js:235 | a committed sale raises "vendas hoje" by one exactly when it is dated today |
| Backend.SqlStore.DashboardOn | GELPK_backend/server.js:231-242 | product and client counts are the table sizes; the two filtered `COUNT(*)` values are `Common.CountMap` of the stock and sales tables, bounded by their tables |
| Backend.SqlStore.UpdateCategory | GELPK_backend/server.js:39-44 | a failing statement: no reply and no change; otherwise 404 and no change exactly when the id is absent, and `Updated(id)` exactly when it is present, with the row replaced, with an empty description stored as NULL |
| Backend.SqlStore.DeleteCategory | GELPK_backend/server.js:45-49 | a failing statement: no reply and no change; otherwise 404 and no change exactly when the id is absent, and 204 exactly when it is present, with the row removed |
| Backend.SqlStore.UpdateProduct | GELPK_backend/server.js:72-78 | a failing statement or a body without `status` (an `undefined` bind): no reply and no change; otherwise 404 and no change exactly when the id is absent, and `Updated(id)` exactly when it is present, with the row replaced (status as given, empty description and category 0 stored as NULL) |
| Backend.SqlStore.DeleteProduct | GELPK_backend/server.js:79-83 | a failing statement: no reply and no change; otherwise 404 and no change exactly when the id is absent, and 204 exactly when it is present, with the row removed |
| Backend.SqlStore.UpdateClient | GELPK_backend/server.js:105-111 | a failing statement: no reply and no change; otherwise 404 and no change exactly when the id is absent, and `Updated(id)` exactly when it is present, with the row replaced, with empty optional fields stored as NULL |
| Backend.SqlStore.DeleteClient | GELPK_backend/server.js:112-116 | a failing statement: no reply and no change; otherwise 404 and no change exactly when the id is absent, and 204 exactly when it is present, with the row removed |
| Backend.SqlStore.UpdateSupplier | GELPK_backend/server.js:138-144 | a failing statement: no reply and no change; otherwise 404 and no change exactly when the id is absent, and `Updated(id)` exactly when it is present, with the row replaced, with empty optional fields stored as NULL |
| Backend.SqlStore.DeleteSupplier | GELPK_backend/server.js:145-149 | a failing statement: no reply and no change; otherwise 404 and no change exactly when the id is absent, and 204 exactly when it is present, with the row removed |
| Legacy.PutRecord | js/script.js:52-55 | `put` fails with "Item must have id for put()" exactly when the id is empty |
| Legacy.PutRecordEffect | js/script.js:52-55 | after a `put`, the key holds the new record, every other key is unchanged, and distinct keys stay distinct |
| Legacy.AddRecord | js/script.js:48-51 | `add` (with the generated id when none is given) fails with a constraint error exactly when the key is taken |
| Legacy.AddRecordEffect | js/script.js:48-51 | after an `add`, the key holds the new record and every other key is unchanged |
| Legacy.PutAt | js/script.js:991-993 | putting back a record read from the store replaces it where it is |
| Legacy.ValidLines | js/script.js:957-963 | the kept lines are exactly those with a product and a positive quantity, in their original order |
| Legacy.SaleTotal | js/script.js:967-974 | with positive quantities and non-negative prices the total is not negative; `Legacy.ComputeTotal` and `Legacy.SaleTotalConcat` are its partners |
| Legacy.ComputeTotal | js/script.js:967-974 | the loop computes the sum of price times quantity, with the given price, else the product's, else 0 |
| Legacy.SaleTotalConcat | js/script.js:967-974 | the total distributes over concatenation of the lines |
| Legacy.Sell | js/script.js:990-996 | one item keeps the snapshot's length and adds at most one record |
| Legacy.SellAll | js/script.js:987-997 | the items keep the snapshot's length and add at most one record each; the records themselves are stated by the three lemmas below |
| Legacy.NewSale | js/script.js:956-983 | the stored sale has the generated id, the kept items, the computed total, the current time and status `concluida`; an empty client becomes no client |
| Legacy.ClampAllIsMax | js/script.js:991 | clamping each sale of a product in turn equals one clamp of the summed quantity: max(0, old - total) |
| Legacy.SellWrite | js/script.js:990-996 | each write of the stock loop takes the persisted store to the next step's store; a new record fails exactly when its id is taken |
| Legacy.SellAllFirst | js/script.js:987-997 | the first record of each product ends with its quantity clamped by all of that product's sales |
| Legacy.SellAllUntouched | js/script.js:987-997 | records of unsold products, and later duplicates of a product, are unchanged |
| Legacy.SellAllAdded | js/script.js:995 | one new record per line whose product had no record, each with quantity 0, the current time and a product that had no record |
| Legacy.SaleStockAt | js/script.js:987-997 | after the whole sale, a sold product's record holds max(0, old - quantity sold), never negative |
| Legacy.InStockAfterSale | js/script.js:269 | a sale never raises the "em estoque" count |
| Legacy.CurrentQuantity | js/script.js:655-657 | the current quantity is 0 when the product has no record |
| Legacy.SetStock | js/script.js:685-691 | the store grows by one record exactly when the product had none; every existing record keeps its key and product, and records of other products are unchanged |
| Legacy.SetStockEffect | js/script.js:685-691 | after the modal's write, the product's current quantity is the written value; other products are unchanged |
| Legacy.SetStockIsWrite | js/script.js:685-691 | that write is a `put` of the found record, or an `add` of a new one when no record exists |
| Legacy.TargetOf | js/script.js:535-547 | exactly the six known types have an entry; `fornecedor` and `estoque` map to their stores and nouns |
| Legacy.TargetOfInjective | js/script.js:535-542 | different types delete from different stores |
| Legacy.RemoveKey | js/script.js:56-58 | `delete` removes exactly the records with that key, and distinct non-empty keys stay so |
| Legacy.LocalStore.SaveSale | js/script.js:954-1005 | no valid line means nothing is stored; the sale is stored before any stock write, so a failing stock write leaves it and the earlier writes in place; a stock write fails only when its request fails or it adds under a taken key; the save succeeds exactly when the sale write and every stock write succeed, and then the stock is the whole sale applied |
| Legacy.LocalStore.StoreSale | js/script.js:966-984 | the sale record with the computed total is stored under its generated id exactly when the request succeeds and the id is free; otherwise nothing changes |
| Legacy.LocalStore.UpdateStock | js/script.js:987-997 | the loop applies the sale item by item against the snapshot read once; it stops at item k exactly when the first k writes succeed and write k fails (its request fails, or it adds under a taken key), leaving exactly the first k writes |
| Legacy.FreshIdsSucceed | js/script.js:987-997 | with no failing request and generated ids new to the store and pairwise distinct, every stock write of the sale succeeds, so `SaveSale` ends as `Saved` whenever the sale write succeeds |
| Legacy.LocalStore.WriteStep | js/script.js:987-997 | write k of the loop succeeds exactly when `WriteFailsAt` does not hold at k, and then persists the view after the first k + 1 items |
| Legacy.LocalStore.WriteItem | js/script.js:990-996 | one item's write persists the next step, or changes nothing when it fails |
| Legacy.LocalStore.SaveStockForProduct | js/script.js:651-699 | "Produto não encontrado" exactly when the product is missing; saved exactly when the product exists, the request succeeds and the write is a put or an add under a free key; the stored quantity is (replacement, else current) plus the added value; nothing changes otherwise |
| Legacy.LocalStore.AddStockEntry | js/script.js:1089-1109 | a quantity <= 0 is rejected exactly; saved exactly when the quantity is positive, the request succeeds and the write is a put or an add under a free key, the product's quantity becoming current (0 if none) plus the entry; nothing changes otherwise |
| Legacy.LocalStore.WriteQuantity | js/script.js:1094-1102 | writing a quantity updates the found record or adds one; it fails only when the new id is taken |
| Legacy.LocalStore.DashboardOn | js/script.js:259-285 | product and client counts are the store sizes; "em estoque" is 0 exactly when no record has quantity > 0 |
| Legacy.LocalStore.ConfirmAndDelete | js/script.js:534-555 | an unknown type or a declined confirmation changes nothing; otherwise the key leaves exactly the store the type names; the stock records keep distinct keys |
| Legacy.SalesTodayAfterSave | js/script.js:273-278 | a stored sale raises "vendas hoje" by one exactly when it is dated today |
| Frontend.GetLabel | GELPK_frontend/js/script.js:441-444 | a known type gets its label (supplier: Fornecedor); every other type gets "item" |
| Frontend.GetEndpoint | GELPK_frontend/js/script.js:445-448 | the four types map to the backend collections; every other type is returned unchanged |
| Frontend.GetEndpointIdempotent | GELPK_frontend/js/script.js:445-448 | mapping an endpoint again changes nothing |
| Frontend.GetEndpointInjective | GELPK_frontend/js/script.js:445-448 | different known types reach different collections |
| Frontend.LabelIffEndpoint | GELPK_frontend/js/script.js:441-448 | a type has a label exactly when it has a collection |
| Frontend.ApiRequest | GELPK_frontend/js/script.js:9-32 | 204 is success without a body; an ok status with a body gives the data; otherwise an error with the body's message, or the status text when it is empty |
| Frontend.SaleReplyReachesForm | GELPK_frontend/js/script.js:14-26 | the sale form gets data (with the new id) exactly when the server answered 201; otherwise it sees the server's message |
| Frontend.WriteReplyReachesForm | GELPK_frontend/js/script.js:14-26 | a delete reaches the form as success, an update as data, a 404 as its message |
| Frontend.DecimalRoundTrip | GELPK_frontend/js/script.js:303 | the id written into the URL reads back as the same number |
| Frontend.SaveRequest | GELPK_frontend/js/script.js:290-316 | no request exactly when the name is empty; PUT to `/<collection>/<id>` when editing, otherwise POST to `/<collection>` |
| Frontend.BlankNamePassesForm | GELPK_frontend/js/script.js:297-300 | a name of one space passes this check, although the category validator rejects it |
| Frontend.StockEditGate | GELPK_frontend/js/script.js:336-345 | an empty or negative quantity is not sent; any other is sent unchanged |
| Frontend.StockEditStored | GELPK_frontend/js/script.js:341-345 | a sent quantity is what the backend then stores for the product |
| Frontend.StockEntryTotal | GELPK_frontend/js/script.js:387-402 | rejected exactly without a product or with a quantity <= 0; otherwise the listed quantity (0 if not listed) plus the entry |
| Backend.IsStockListing | GELPK_backend/server.js:157-161 | the answer of `GET /api/stock`: one row per stock row whose product exists (inner join), carrying its quantity, time and product name |
| Backend.StockListingSize | GELPK_backend/server.js:157-161 | a listing's product ids are exactly the products with both a stock row and a product row, one row each |
| Frontend.ListedQuantity | GELPK_frontend/js/script.js:397-399 | 0 when the product is not listed; a non-zero result is the quantity of a listed row of that product |
| Frontend.ListedQuantityIsStock | GELPK_frontend/js/script.js:397-399 | the quantity read from the stock listing is the product's stock row, or 0 without one |
| Frontend.StockEntryStored | GELPK_frontend/js/script.js:386-418 | after an accepted entry, the backend stores the old quantity (or 0) plus the entry |
| Frontend.CalculateTotal | GELPK_frontend/js/script.js:501-510 | the loop computes the sum of quantity times price over the rows |
| Frontend.SaleRequestFor | GELPK_frontend/js/script.js:547-565 | no request exactly when there are no rows; otherwise the request carries all rows, so the backend's 400 check passes |
| Frontend.BuildSaleRequest | GELPK_frontend/js/script.js:554-560 | the push loop builds that request |
| Frontend.LinesTotalOfRows | GELPK_frontend/js/script.js:501-510 | the stored line items add up to the form's total |
| Frontend.FormSaleTotalMatchesItems | GELPK_frontend/js/script.js:548-552 | for a sale sent from this form, the stored header total equals the sum of its stored line items |

## Left out

- I/O and plumbing are not modelled: IndexedDB transactions, `fetch`, Express routing, the MySQL connection pool, DOM rendering and modals. The stores are maps and sequences; a failing request is a `fault` input.
- `js/db.js`, `js/main.js`, `GELPK_backend/db.js` and the seed data are not part of this model.
- The create routes (`POST /api/categories` and the like), the list routes other than `GET /api/stock` (described by `Backend.IsStockListing`) and `GET /api/sales` are not modelled. Each is a single insert or select with no rule to state.
- The local edit modal of a stock record (`openEditEstoqueModal`, js/script.js:702-733) is not modelled; it is one `put`, covered by `Legacy.PutRecordEffect`.
- Numbers are already typed. `Number(x) \|\| 0`, `parseInt`/`parseFloat`, NaN, and a form that yields a string where a number is expected are not modelled. An empty or missing form value is `None`.
- Money is integer cents. JavaScript floating-point rounding is not modelled.
- `escapeHtml` is modelled on strings only. On `undefined` the two versions differ: js/script.js:1038 defaults it to `''`, while GELPK_frontend/js/script.js:66 renders `"undefined"`.
- Dates are calendar days plus a second of the day. Time zones, `toISOString` and the gap between the browser's local date and the server's `CURDATE()` are not modelled.
- The clock and `generateId` are parameters. The sale id of `POST /api/sales` comes from the counter `Backend.SqlStore.nextSaleId`; `Backend.CommitSale` takes it as an argument.
- One instant `now` stands for every clock read of a handler. The local sale save reads `new Date().toISOString()` separately for the sale date and for each stock write (js/script.js:981, 992 and 995); the model stamps them all with the same `now`, so differences of milliseconds between them are not modelled.
- IndexedDB `getAll` order is modelled as the order of the `estoque` sequence; key order is not modelled. JavaScript prototype keys in the lookup tables (`labels['constructor']`) are not modelled.
- Concurrency is not modelled. The stock modal and the sale save read the store once and write later. Each handler runs as one step, so a write by another tab in between is not modelled.
- Faults on the read routes are modelled only for `GET /api/sales/:id`. The dashboard and stock listing queries always succeed in the model.
- `PUT /api/stock/:productId` and the update and delete routes have no `try`. A failure leaves the request unanswered: the model returns no reply and writes nothing. A client left waiting is not modelled further.
- The MySQL schema (foreign keys, triggers) is not available. The model does not say which statements a schema rejects. A statement that fails for such a reason is covered by the `fault` input of the sale registration, the stock upsert and the update and delete routes. A bind parameter other than `status` that is `undefined` (a body without `name`, say) is not modelled, because the route inputs are typed.
- The order of rows in SQL results not sorted by the query is not modelled, with one exception. `Backend.IsStockListing` allows any order; the route sorts by product name. `Backend.JoinItems` assumes that the items query, which has no `ORDER BY`, returns line items in insertion order. `Backend.LineItemsJoin` and `Backend.DetailAfterCommit` state request order under that assumption.
- Backend.SqlStore.DashboardOn: the contract bounds `produtosEstoque` and `vendasHoje` by their tables instead of restating the `COUNT(*)` in its body. How those counts move is stated by `Backend.InStockAfterUpsert` and `Backend.SalesTodayAfterCommit`.
- Legacy.LocalStore.DashboardOn: the contract fixes "em estoque" only at 0 and bounds "vendas hoje". How they move is stated by `Legacy.InStockAfterSale` and `Legacy.SalesTodayAfterSave`.
- Frontend.SaleReplyReachesForm: the error case is stated for a non-empty server message. An empty one would show the status text; the server never sends one.
- Frontend.WriteReplyReachesForm: the same restriction to a non-empty message.
- The local dashboard counts stock records, not products. Duplicate records of one product, which the sale save can create, are counted separately. The model keeps this behaviour.
- Both stores write the status `concluida`, which `Venda.validate` rejects (`Models.StoredSaleStatusFailsValidation`). Nothing in the code runs that validator on stored sales, so the model keeps both as they are.
