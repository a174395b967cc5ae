# StockFlow low-stock alerts, modelled in Dafny

StockFlow tracks per-warehouse stock of products owned by companies. This project models two parts of its Flask application:

- The **low-stock alert report** (`GET /api/companies/<company_id>/alerts/low-stock`, `get_low_stock_alerts`). It returns one alert per stock row of the company's products that is strictly below the product's `low_stock_threshold` and whose sales over the last 30 days sum to a non-zero total. Rows whose window sales are absent, or cancel out to 0 (say +5 and -5), are dropped. Each alert carries an estimated number of days until stockout and one of the product's suppliers, if it has any.
- The **request-validation decision** of `POST /api/products` (`create_product`). The handler either answers 400 (missing fields) or 409 (SKU taken), or it goes on to create a product and possibly a stock row.

Files:

- `wrappers.dfy`: `Option`, the model of Python's `None`.
- `records.dfy`: the schema rows (`Product`, `Warehouse`, `Inventory`, `Supplier`, `ProductSupplier`, `Sale`) and the `Store` that holds one table (a sequence of rows) of each.
  - `Valid` states that product, warehouse and supplier ids are unique, plus the one-row-per-(product, warehouse) constraint on stock rows. The ids of stock rows and sales, and the key of the link table, are not among them: no modelled logic depends on them.
  - `Lookup` is the lookup by key that the joins use.
- `low_stock.dfy`: the alert engine, step by step:
  - `CandidateRows` is the join and filter query.
  - `WindowSales`, `SalesAggregate` and `Silent` are the windowed `SUM` and the `not sales` test.
  - `TruncDiv` and `DaysUntilStockout` compute the estimate.
  - `LinkedSuppliers` and `SupplierChoice` cover the supplier.
  - `GetLowStockAlerts` is the handler's loop. It is proved against `IsLowStockReport`, and the lemmas below it state what every such report satisfies.
- `scenarios.dfy`: a worked example store (products A to D) and the report it yields.
- `product_creation.dfy`: the validation decision `Decide` and its lemmas.

Modelling choices:

- **Sales window.** Timestamps are integer seconds, and `now` is a parameter. The window starts at `now - 30 * 86400` and is inclusive.
- **Empty sums.** SQL's `SUM` over no rows is NULL, so `SalesAggregate` returns `None` there. A row whose aggregate is `None` or `0` is dropped, as Python's `not sales` does.
- **Days until stockout.** The source computes `int(quantity / (sales / 30))` in floating point. The model computes it exactly: `quantity * 30` divided by `sales`, truncated toward zero for every sign of the operands. `TruncDiv` is specified by its bounds, not by its body. For stock on hand and positive sales, `DaysUntilStockoutFloor` proves the estimate is the floor of `quantity * 30 / sales`.
- **Supplier.** The supplier query's `.first()` is modelled as an arbitrary choice from the set of linked suppliers. The contract only says the choice is `None` exactly when that set is empty.
- **Company filter.** The candidate query filters on the product's company only, not on the warehouse's company. The model does the same.
- **Candidate order.** The order of the candidate query's rows is not fixed by SQL. The model uses stock-table order. The report follows candidate order, and `WindowTotalPermutation` shows the sales totals do not depend on the order of the sales log.
- **Three choices follow app.py literally:**
  - The estimate is `int(...)` of a quotient at app.py:80, which truncates toward zero; `TruncDiv` does the same for every sign of quantity and sales.
  - `get_low_stock_alerts` (app.py:48-105) reads no company row. A company id without products simply gets an empty report (`NoAlertsWithoutProducts`).
  - The window is the constant `timedelta(days=30)` at app.py:50, here `WINDOW_DAYS`; the same 30 divides the sales at app.py:79.

## Model

| member | source | states |
|---|---|---|
| Records.Lookup | app.py:61-62 | the row found has the key searched for, and no row has it when none is found |
| Records.LookupFindsRow | models.py:14 | with unique ids, looking up a row's id finds that row |
| Records.KeysUniqueSameRow | models.py:38 | with unique keys (such as the (product, warehouse) constraint), two rows sharing a key are the same row |
| LowStock.CandidateRows | app.py:51-66 | candidates are at most one per stock row, and every candidate's quantity is strictly below its threshold |
| LowStock.CandidateRowsSound | app.py:61-64 | every candidate is the joined row of a stock row, its product and its warehouse, with the product in the company and the quantity below the threshold |
| LowStock.CandidateRowsComplete | app.py:61-64 | with unique product and warehouse ids, every such selected triple yields a candidate |
| LowStock.CandidatesIff | app.py:51-66 | on a valid store, a row is a candidate if and only if it comes from a selected triple |
| LowStock.CandidateRowsKeysUnique | app.py:61-62 | one stock row per (product, warehouse) gives one candidate per (product, warehouse) |
| LowStock.WindowSales | app.py:70-74 | a sale is summed if and only if it has the row's product and warehouse and was created at or after the window start |
| LowStock.WindowSalesCounts | app.py:70-74 | the window keeps every copy of an in-window sale and no copy of any other sale, so repeated identical sales are all summed |
| LowStock.SalesAggregate | app.py:70-74 | the aggregate is NULL exactly when no sale falls in the window |
| LowStock.WindowTotalAppend | app.py:70 | the windowed total of two concatenated logs is the sum of their totals |
| LowStock.WindowTotalPermutation | app.py:70-74 | the windowed total is the same for any ordering of the same sales |
| LowStock.OtherSalesContributeNothing | app.py:71-73 | adding sales for other pairs or older than the window leaves the aggregate unchanged |
| LowStock.WindowStartInclusive | app.py:50-73 | a sale exactly 30 days old counts, and one a second older does not |
| LowStock.TruncDiv | app.py:80 | the quotient's magnitude is the floor of the magnitudes' ratio, with the sign of the exact quotient (truncation toward zero) |
| LowStock.DaysUntilStockout | app.py:79-80 | the days left are `quantity * 30 / sales` truncated toward zero: their magnitude is the floor of the magnitudes' ratio, and a non-zero estimate is negative exactly when quantity and sales have opposite signs |
| LowStock.DaysUntilStockoutFloor | app.py:79-80 | for non-negative stock and positive sales, the days left are `quantity * 30 / sales` rounded down, and are non-negative |
| LowStock.DaysUntilStockoutExamples | app.py:79-80 | 5 on hand with 30 sold gives 5 days; 3 on hand with 1 sold gives 90 days |
| LowStock.LinkedSuppliers | app.py:82-84 | every supplier the product can be reported with is an existing supplier row that a link row ties to the product |
| LowStock.LinkedSupplier | app.py:82-84 | every supplier linked to the product through the link table is a possible first row of the supplier query |
| LowStock.AlertedRows | app.py:69-77 | the rows the loop keeps are candidates, and there are no more of them than candidates |
| LowStock.AlertedRowsStep | app.py:69-77 | processing one more candidate adds it to the kept rows unless its sales are absent or zero |
| LowStock.AlertedRowsIff | app.py:76-77 | a candidate is kept if and only if its windowed sales are neither absent nor zero |
| LowStock.AlertedRowsKeysUnique | app.py:76-77 | skipping rows keeps the (product, warehouse) pairs distinct |
| LowStock.IsLowStockReport | app.py:86-105 | a report of this shape counts its alerts in `total_alerts`, and never holds more alerts than there are stock rows |
| LowStock.GetLowStockAlerts | app.py:48-105 | the report has one alert per kept candidate, in candidate order; each alert copies the row's ids, names, sku, stock and threshold and carries the estimate and a linked supplier (or null when none); the total equals the number of alerts |
| LowStock.AlertsBelowThreshold | app.py:64-94 | every alert's current stock is strictly below its threshold, and its days-until-stockout is never null |
| LowStock.NoAlertAtOrAboveThreshold | app.py:63-64 | on a valid store, a stock row at or above its product's threshold never gets an alert |
| LowStock.NoAlertWithoutSales | app.py:76-77 | a (product, warehouse) pair with no or zero-sum sales in the window never gets an alert |
| LowStock.CandidateWithSalesAlerted | app.py:69-100 | every candidate with a non-zero windowed total gets an alert |
| LowStock.AlertPairsDistinct | app.py:69-100 | on a valid store, no two alerts share a (product, warehouse) pair |
| LowStock.SupplierNullIffUnlinked | app.py:82-99 | when links name existing suppliers, an alert's supplier is null if and only if the product has no link; otherwise it is the id, name and email of a linked supplier |
| LowStock.NoAlertsWithoutProducts | app.py:63 | a company with no products (an unknown company, say) gets an empty report with total 0 |
| LowStockScenarios.ExampleCandidates | app.py:61-64 | in the example store, the product at exactly its threshold is not a candidate |
| LowStockScenarios.ExampleSales | app.py:70-74 | in the example store, only sales inside the window are summed, and a product whose only sale is 40 days old has a NULL aggregate |
| LowStockScenarios.ExampleSuppliers | app.py:82-84 | in the example store, the linked-supplier sets are a single supplier and the empty set |
| LowStockScenarios.KeepFirstAndLast | app.py:76-77 | of three candidates whose middle one is silent, the first and last are kept |
| LowStockScenarios.ExampleKeptRows | app.py:69-77 | in the example store, the product without recent sales is dropped |
| LowStockScenarios.ExampleReport | app.py:48-105 | the example report lists A (5 days, its supplier) and then D (90 days, no supplier), with total 2 |
| ProductCreation.Decide | app.py:14-39 | the handler rejects only with 400 or 409; 400 exactly when some required field is absent; and it goes on to create exactly when every required field is present and the SKU is not taken |
| ProductCreation.MissingFields | app.py:16-17 | a field is reported missing if and only if it is required and absent from the body |
| ProductCreation.MissingFieldsInOrder | app.py:16-17 | the missing fields come in the order the required list gives them |
| ProductCreation.NoneMissing | app.py:17-18 | a body holding every required field has no missing fields |
| ProductCreation.MissingFieldRejected | app.py:16-19 | a body lacking a required field gets 400 with "Missing fields: " followed by exactly the absent required names, in required-list order, joined by ", "; the decision does not depend on the existing SKUs |
| ProductCreation.DuplicateSkuRejected | app.py:21-22 | a complete body whose SKU is taken gets 409 "SKU already exists" |
| ProductCreation.CompleteBodyCreates | app.py:24-39 | a complete body with a new SKU creates the product with its name, sku, company and price (0.00 when absent), and a stock row if and only if warehouse_id and initial_quantity are both given |
| ProductCreation.OnlyNameGivenMessage | app.py:17-19 | a body with only a name is rejected with "Missing fields: sku, company_id" |
| ProductCreation.JoinRequiredFields | app.py:19 | the three required names joined with ", " read "name, sku, company_id" |
| ProductCreation.EmptyBodyMessage | app.py:14-19 | an absent body is treated as empty and rejected with "Missing fields: name, sku, company_id" |

## Left out

- HTTP plumbing: Flask routing, `request.get_json`, `jsonify` and status codes on the wire. Responses are datatypes (`Report`, `Decision`).
- Persistence in `create_product`: it is I/O. This covers the session's `add`, `commit` and `rollback`, the 201 response with the new id, and the catch-all 500 path. The new product's id is left out too, so `NewInventory` carries no `product_id`.
- Data-store failures while computing the report: they are I/O and propagate unchanged.
- The wall clock (`datetime.utcnow()`): `now` is a parameter.
- Floating-point division: the estimate is computed exactly. The float result can differ at rounding edges.
- GetLowStockAlerts: does not say which supplier `.first()` returns, because that depends on the database's row order. It states only that the supplier is one of the linked ones.
- Candidate order: SQL leaves the candidate query's row order open. The model fixes it to stock-table order.
- NULL values in `inventory.quantity`, `products.low_stock_threshold`, `sales.quantity` and `sales.created_at`: these columns are plain integers here, so NULL cannot be represented. In SQL a NULL quantity or threshold makes `quantity < threshold` unknown, so the row is never a candidate, and a sale with a NULL `created_at` falls outside the window; the model has no such rows.
- The companies table and the `created_at` columns of companies, warehouses, products and suppliers: no modelled logic reads them. Stock rows' `updated_at` is carried but not read.
- Request bodies that are JSON arrays, nested objects, or not objects at all: body values are scalars, and a body is a map, or absent.
- The SQL type coercion in the SKU lookup: `existingSkus` is the set of values that the lookup matches.
