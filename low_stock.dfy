/**
 * The low-stock alert report of one company (the handler behind
 * `GET /api/companies/<company_id>/alerts/low-stock`).
 *
 * The report is computed in four steps: select the company's stock rows that
 * are strictly below their product's threshold, total each row's sales over
 * the trailing 30-day window, drop the rows without sales, and turn each
 * remaining row into an alert carrying a days-until-stockout estimate and one
 * of the product's suppliers.
 */
module LowStock {
  import opened Wrappers
  import opened Records

  /** Length of the trailing sales window, in days; also the divisor of the daily average. */
  const WINDOW_DAYS: int := 30
  const SECONDS_PER_DAY: int := 86400

  /** `now - 30 days`, the earliest sale time that still counts. */
  function WindowStart(now: Timestamp): Timestamp
  {
    now - WINDOW_DAYS * SECONDS_PER_DAY
  }

  // ---------------------------------------------------------------------
  // Step 1: the candidate query

  /** One row of the candidate query: the selected product, stock and warehouse columns. */
  datatype Row = Row(
    productId: int,
    productName: string,
    sku: string,
    threshold: int,
    quantity: int,
    warehouseId: int,
    warehouseName: string)

  function JoinRow(p: Product, i: Inventory, w: Warehouse): Row
  {
    Row(p.id, p.name, p.sku, p.lowStockThreshold, i.quantity, i.warehouseId, w.name)
  }

  function RowKey(r: Row): (int, int) { (r.productId, r.warehouseId) }

  /** The stock row `i` joins with product `p` and warehouse `w` and passes both filters. */
  predicate Selected(i: Inventory, p: Product, w: Warehouse, companyId: int)
  {
    && p.id == i.productId
    && w.id == i.warehouseId
    && p.companyId == companyId
    && i.quantity < p.lowStockThreshold
  }

  /** The row is the joined row of some selected (stock, product, warehouse) triple of the tables. */
  ghost predicate FromSelected(
    r: Row, inventory: seq<Inventory>, products: seq<Product>, warehouses: seq<Warehouse>, companyId: int)
  {
    exists i, p, w :: i in inventory && p in products && w in warehouses && Selected(i, p, w, companyId) && r == JoinRow(p, i, w)
  }

  /**
   * Stock rows joined with their product and warehouse, keeping the rows of
   * the company's products whose quantity is strictly below the product's
   * threshold, in stock-row order. Only the product's company is filtered on.
   */
  function CandidateRows(
    inventory: seq<Inventory>, products: seq<Product>, warehouses: seq<Warehouse>, companyId: int
  ): (rows: seq<Row>)
    ensures |rows| <= |inventory|
    ensures forall r :: r in rows ==> r.quantity < r.threshold
  {
    if inventory == [] then []
    else
      var i := inventory[0];
      var rest := CandidateRows(inventory[1..], products, warehouses, companyId);
      match (Lookup(products, ProductKey, i.productId), Lookup(warehouses, WarehouseKey, i.warehouseId))
      case (Some(p), Some(w)) =>
        if p.companyId == companyId && i.quantity < p.lowStockThreshold then [JoinRow(p, i, w)] + rest else rest
      case _ => rest
  }

  function Candidates(store: Store, companyId: int): seq<Row>
  {
    CandidateRows(store.inventory, store.products, store.warehouses, companyId)
  }

  /** Every candidate row comes from a selected (stock, product, warehouse) triple. */
  lemma {:induction false} CandidateRowsSound(
    inventory: seq<Inventory>, products: seq<Product>, warehouses: seq<Warehouse>, companyId: int, r: Row)
    requires r in CandidateRows(inventory, products, warehouses, companyId)
    ensures FromSelected(r, inventory, products, warehouses, companyId)
  {
    var i := inventory[0];
    var rest := CandidateRows(inventory[1..], products, warehouses, companyId);
    if r in rest {
      CandidateRowsSound(inventory[1..], products, warehouses, companyId, r);
      var i', p, w :| i' in inventory[1..] && p in products && w in warehouses
        && Selected(i', p, w, companyId) && r == JoinRow(p, i', w);
      assert i' in inventory;
    } else {
      var p := Lookup(products, ProductKey, i.productId).value;
      var w := Lookup(warehouses, WarehouseKey, i.warehouseId).value;
      assert Selected(i, p, w, companyId) && r == JoinRow(p, i, w);
    }
  }

  /** With unique product and warehouse ids, every selected triple yields a candidate row. */
  lemma {:induction false} CandidateRowsComplete(
    inventory: seq<Inventory>, products: seq<Product>, warehouses: seq<Warehouse>, companyId: int,
    i: Inventory, p: Product, w: Warehouse)
    requires KeysUnique(products, ProductKey) && KeysUnique(warehouses, WarehouseKey)
    requires i in inventory && p in products && w in warehouses && Selected(i, p, w, companyId)
    ensures JoinRow(p, i, w) in CandidateRows(inventory, products, warehouses, companyId)
  {
    if i == inventory[0] {
      LookupFindsRow(products, ProductKey, p);
      LookupFindsRow(warehouses, WarehouseKey, w);
    } else {
      CandidateRowsComplete(inventory[1..], products, warehouses, companyId, i, p, w);
    }
  }

  /** The candidate rows are exactly the joined rows of the selected triples. */
  lemma CandidatesIff(store: Store, companyId: int, r: Row)
    requires Valid(store)
    ensures r in Candidates(store, companyId) <==>
      FromSelected(r, store.inventory, store.products, store.warehouses, companyId)
  {
    if r in Candidates(store, companyId) {
      CandidateRowsSound(store.inventory, store.products, store.warehouses, companyId, r);
    }
    if FromSelected(r, store.inventory, store.products, store.warehouses, companyId) {
      var i, p, w :| i in store.inventory && p in store.products && w in store.warehouses
        && Selected(i, p, w, companyId) && r == JoinRow(p, i, w);
      CandidateRowsComplete(store.inventory, store.products, store.warehouses, companyId, i, p, w);
    }
  }

  /** One stock row per (product, warehouse) gives one candidate row per (product, warehouse). */
  lemma {:induction false} CandidateRowsKeysUnique(
    inventory: seq<Inventory>, products: seq<Product>, warehouses: seq<Warehouse>, companyId: int)
    requires KeysUnique(inventory, StockKey)
    ensures KeysUnique(CandidateRows(inventory, products, warehouses, companyId), RowKey)
  {
    if inventory != [] {
      var rest := CandidateRows(inventory[1..], products, warehouses, companyId);
      CandidateRowsKeysUnique(inventory[1..], products, warehouses, companyId);
      var rows := CandidateRows(inventory, products, warehouses, companyId);
      if rows != rest {
        forall b | 0 < b < |rows| ensures RowKey(rows[0]) != RowKey(rows[b]) {
          assert rows[b] == rest[b - 1];
          CandidateRowsSound(inventory[1..], products, warehouses, companyId, rest[b - 1]);
          var i, p, w :| i in inventory[1..] && p in products && w in warehouses
            && Selected(i, p, w, companyId) && rest[b - 1] == JoinRow(p, i, w);
          var j :| 0 <= j < |inventory[1..]| && inventory[1..][j] == i;
          assert StockKey(inventory[0]) != StockKey(inventory[j + 1]);
        }
      }
    }
  }

  // ---------------------------------------------------------------------
  // Step 2: the windowed sales total

  /** The sale is for this (product, warehouse) pair and no older than the window start. */
  predicate InWindow(s: Sale, productId: int, warehouseId: int, start: Timestamp)
  {
    s.productId == productId && s.warehouseId == warehouseId && s.createdAt >= start
  }

  /** The sales the aggregate query ranges over, in log order. */
  function WindowSales(sales: seq<Sale>, productId: int, warehouseId: int, start: Timestamp): (w: seq<Sale>)
    ensures forall s :: s in w <==> s in sales && InWindow(s, productId, warehouseId, start)
  {
    if sales == [] then []
    else
      (if InWindow(sales[0], productId, warehouseId, start) then [sales[0]] else [])
      + WindowSales(sales[1..], productId, warehouseId, start)
  }

  /** The window keeps every copy of a sale inside it and none outside it. */
  lemma {:induction false} WindowSalesCounts(sales: seq<Sale>, productId: int, warehouseId: int, start: Timestamp, s: Sale)
    ensures multiset(WindowSales(sales, productId, warehouseId, start))[s]
         == if InWindow(s, productId, warehouseId, start) then multiset(sales)[s] else 0
  {
    if sales != [] {
      WindowSalesCounts(sales[1..], productId, warehouseId, start, s);
      assert sales == [sales[0]] + sales[1..];
    }
  }

  function Total(sales: seq<Sale>): int
  {
    if sales == [] then 0 else sales[0].quantity + Total(sales[1..])
  }

  /** `SUM(quantity)` over the window; SQL's SUM of no rows is NULL, here None. */
  function SalesAggregate(sales: seq<Sale>, productId: int, warehouseId: int, start: Timestamp): (agg: Option<int>)
    ensures agg.None? <==> forall s :: s in sales ==> !InWindow(s, productId, warehouseId, start)
  {
    var w := WindowSales(sales, productId, warehouseId, start);
    if w == [] then None else assert w[0] in w; Some(Total(w))
  }

  /** Python's `not sales` on the aggregate: absent or zero. */
  predicate Silent(agg: Option<int>)
  {
    agg.None? || agg.value == 0
  }

  lemma {:induction false} TotalAppend(a: seq<Sale>, b: seq<Sale>)
    ensures Total(a + b) == Total(a) + Total(b)
  {
    if a != [] {
      assert (a + b)[0] == a[0];
      assert (a + b)[1..] == a[1..] + b;
      TotalAppend(a[1..], b);
    } else {
      assert a + b == b;
    }
  }

  lemma {:induction false} WindowSalesAppend(a: seq<Sale>, b: seq<Sale>, productId: int, warehouseId: int, start: Timestamp)
    ensures WindowSales(a + b, productId, warehouseId, start)
         == WindowSales(a, productId, warehouseId, start) + WindowSales(b, productId, warehouseId, start)
  {
    var wa := WindowSales(a, productId, warehouseId, start);
    var wb := WindowSales(b, productId, warehouseId, start);
    if a != [] {
      var head := if InWindow(a[0], productId, warehouseId, start) then [a[0]] else [];
      assert (a + b)[0] == a[0];
      assert (a + b)[1..] == a[1..] + b;
      WindowSalesAppend(a[1..], b, productId, warehouseId, start);
      calc {
        WindowSales(a + b, productId, warehouseId, start);
        head + WindowSales(a[1..] + b, productId, warehouseId, start);
        head + (WindowSales(a[1..], productId, warehouseId, start) + wb);
        (head + WindowSales(a[1..], productId, warehouseId, start)) + wb;
        wa + wb;
      }
    } else {
      assert a + b == b;
    }
  }

  /** The windowed total of the concatenation of two logs is the sum of their windowed totals. */
  lemma WindowTotalAppend(a: seq<Sale>, b: seq<Sale>, productId: int, warehouseId: int, start: Timestamp)
    ensures Total(WindowSales(a + b, productId, warehouseId, start))
         == Total(WindowSales(a, productId, warehouseId, start)) + Total(WindowSales(b, productId, warehouseId, start))
  {
    WindowSalesAppend(a, b, productId, warehouseId, start);
    TotalAppend(WindowSales(a, productId, warehouseId, start), WindowSales(b, productId, warehouseId, start));
  }

  /** The windowed total does not depend on the order in which the store keeps its sales. */
  lemma {:induction false} WindowTotalPermutation(a: seq<Sale>, b: seq<Sale>, productId: int, warehouseId: int, start: Timestamp)
    requires multiset(a) == multiset(b)
    ensures Total(WindowSales(a, productId, warehouseId, start)) == Total(WindowSales(b, productId, warehouseId, start))
    decreases |a|
  {
    if a != [] {
      var x := a[0];
      assert x in multiset(b);
      var j :| 0 <= j < |b| && b[j] == x;
      var b' := b[..j] + b[j + 1..];
      assert b == b[..j] + [x] + b[j + 1..];
      assert a == [x] + a[1..];
      assert multiset(b) == multiset(b[..j]) + multiset{x} + multiset(b[j + 1..]);
      assert multiset(b') == multiset(b[..j]) + multiset(b[j + 1..]);
      assert multiset(a) == multiset{x} + multiset(a[1..]);
      assert multiset(a[1..]) == multiset(a) - multiset{x};
      assert multiset(b') == multiset(b) - multiset{x};
      WindowTotalPermutation(a[1..], b', productId, warehouseId, start);
      WindowTotalAppend([x], a[1..], productId, warehouseId, start);
      WindowTotalAppend(b[..j], b[j + 1..], productId, warehouseId, start);
      WindowTotalAppend(b[..j] + [x], b[j + 1..], productId, warehouseId, start);
      WindowTotalAppend(b[..j], [x], productId, warehouseId, start);
    }
  }

  lemma {:induction false} WindowSalesEmpty(sales: seq<Sale>, productId: int, warehouseId: int, start: Timestamp)
    requires forall s :: s in sales ==> !InWindow(s, productId, warehouseId, start)
    ensures WindowSales(sales, productId, warehouseId, start) == []
  {
    if sales != [] {
      assert sales[0] in sales;
      WindowSalesEmpty(sales[1..], productId, warehouseId, start);
    }
  }

  /** Sales outside the window or for other pairs change nothing in the aggregate. */
  lemma OtherSalesContributeNothing(sales: seq<Sale>, extra: seq<Sale>, productId: int, warehouseId: int, start: Timestamp)
    requires forall s :: s in extra ==> !InWindow(s, productId, warehouseId, start)
    ensures SalesAggregate(sales + extra, productId, warehouseId, start) == SalesAggregate(sales, productId, warehouseId, start)
  {
    WindowSalesAppend(sales, extra, productId, warehouseId, start);
    WindowSalesEmpty(extra, productId, warehouseId, start);
    assert WindowSales(sales + extra, productId, warehouseId, start) == WindowSales(sales, productId, warehouseId, start);
  }

  /** The window bound is inclusive: a sale exactly 30 days old counts, one a second older does not. */
  lemma WindowStartInclusive(s: Sale, now: Timestamp)
    ensures s.createdAt == now - 30 * 86400 ==>
      SalesAggregate([s], s.productId, s.warehouseId, WindowStart(now)) == Some(s.quantity)
    ensures s.createdAt == now - 30 * 86400 - 1 ==>
      SalesAggregate([s], s.productId, s.warehouseId, WindowStart(now)) == None
  {
    assert [s][0] == s && [s][1..] == [];
    assert WindowSales([], s.productId, s.warehouseId, WindowStart(now)) == [];
    assert Total([s]) == s.quantity + Total([]);
  }

  // ---------------------------------------------------------------------
  // Step 4: the stockout estimate

  function Abs(x: int): nat { if x < 0 then -x else x }

  lemma DivBounds(n: nat, d: nat)
    requires d > 0
    ensures (n / d) * d <= n < (n / d + 1) * d
  {
  }

  /** Integer division rounding toward zero, as Python's `int()` does to a quotient. */
  function TruncDiv(a: int, b: int): (q: int)
    requires b != 0
    ensures Abs(q) * Abs(b) <= Abs(a) < (Abs(q) + 1) * Abs(b)
    ensures q != 0 ==> (q < 0 <==> (a < 0) != (b < 0))
  {
    var m := Abs(a) / Abs(b);
    DivBounds(Abs(a), Abs(b));
    if (a < 0) != (b < 0) then -m else m
  }

  /**
   * `int(quantity / (sales / 30))`: the quantity divided by the average daily
   * sales, truncated toward zero, computed exactly as `quantity * 30 / sales`.
   */
  function DaysUntilStockout(quantity: int, sales: int): (days: int)
    requires sales != 0
    ensures Abs(days) * Abs(sales) <= Abs(quantity) * WINDOW_DAYS < (Abs(days) + 1) * Abs(sales)
    ensures days != 0 ==> (days < 0 <==> (quantity < 0) != (sales < 0))
  {
    assert Abs(quantity * WINDOW_DAYS) == Abs(quantity) * WINDOW_DAYS;
    TruncDiv(quantity * WINDOW_DAYS, sales)
  }

  /** For stock on hand and positive sales, the estimate is the floor of `quantity * 30 / sales`. */
  lemma DaysUntilStockoutFloor(quantity: int, sales: int)
    requires quantity >= 0 && sales > 0
    ensures DaysUntilStockout(quantity, sales) == quantity * 30 / sales
    ensures DaysUntilStockout(quantity, sales) >= 0
    ensures DaysUntilStockout(quantity, sales) * sales <= quantity * 30 < (DaysUntilStockout(quantity, sales) + 1) * sales
  {
  }

  /** One unit sold per day with 5 on hand lasts 5 days; 1 sold in 30 days with 3 on hand lasts 90. */
  lemma DaysUntilStockoutExamples()
    ensures DaysUntilStockout(5, 30) == 5
    ensures DaysUntilStockout(3, 1) == 90
  {
  }

  // ---------------------------------------------------------------------
  // Step 5: the supplier

  /** The supplier columns an alert reports. */
  datatype SupplierRef = SupplierRef(id: int, name: string, contactEmail: Option<string>)

  function Ref(s: Supplier): SupplierRef
  {
    SupplierRef(s.id, s.name, s.contactEmail)
  }

  /** The suppliers joined to the product through the link table. */
  function LinkedSuppliers(store: Store, productId: int): (linked: set<SupplierRef>)
    ensures forall r :: r in linked ==> exists s :: s in store.suppliers && Ref(s) == r
    ensures forall r :: r in linked ==>
      exists l :: l in store.productSuppliers && l.productId == productId && l.supplierId == r.id
  {
    set l, s | l in store.productSuppliers && s in store.suppliers && l.productId == productId && l.supplierId == s.id
      :: Ref(s)
  }

  lemma LinkedSupplier(store: Store, l: ProductSupplier, s: Supplier)
    requires l in store.productSuppliers && s in store.suppliers && l.supplierId == s.id
    ensures Ref(s) in LinkedSuppliers(store, l.productId)
  {
  }

  /** What the first row of the supplier query may be: none exactly when no supplier is linked. */
  predicate SupplierChoice(choice: Option<SupplierRef>, linked: set<SupplierRef>)
  {
    match choice
    case None => linked == {}
    case Some(r) => r in linked
  }

  // ---------------------------------------------------------------------
  // Steps 3 and 6: the report

  datatype Alert = Alert(
    productId: int,
    productName: string,
    sku: string,
    warehouseId: int,
    warehouseName: string,
    currentStock: int,
    threshold: int,
    daysUntilStockout: Option<int>,
    supplier: Option<SupplierRef>)

  datatype Report = Report(alerts: seq<Alert>, totalAlerts: int)

  /** The candidate rows whose windowed sales are neither absent nor zero, in candidate order. */
  function AlertedRows(rows: seq<Row>, sales: seq<Sale>, start: Timestamp): (kept: seq<Row>)
    ensures |kept| <= |rows|
    ensures forall r :: r in kept ==> r in rows
  {
    if rows == [] then []
    else
      var last := rows[|rows| - 1];
      AlertedRows(rows[..|rows| - 1], sales, start)
      + (if Silent(SalesAggregate(sales, last.productId, last.warehouseId, start)) then [] else [last])
  }

  /** Extending the candidate prefix by one row extends the kept rows by that row, unless it is silent. */
  lemma AlertedRowsStep(rows: seq<Row>, i: int, sales: seq<Sale>, start: Timestamp)
    requires 0 <= i < |rows|
    ensures AlertedRows(rows[..i + 1], sales, start) == AlertedRows(rows[..i], sales, start)
      + (if Silent(SalesAggregate(sales, rows[i].productId, rows[i].warehouseId, start)) then [] else [rows[i]])
  {
    assert rows[..i + 1][..i] == rows[..i];
  }

  /** A row is kept exactly when it is a candidate with some non-zero sales total. */
  lemma {:induction false} AlertedRowsIff(rows: seq<Row>, sales: seq<Sale>, start: Timestamp, r: Row)
    ensures r in AlertedRows(rows, sales, start) <==>
      r in rows && !Silent(SalesAggregate(sales, r.productId, r.warehouseId, start))
  {
    if rows != [] {
      var init := rows[..|rows| - 1];
      AlertedRowsIff(init, sales, start, r);
      assert rows == init + [rows[|rows| - 1]];
    }
  }

  /** Dropping rows keeps the (product, warehouse) pairs distinct. */
  lemma {:induction false} AlertedRowsKeysUnique(rows: seq<Row>, sales: seq<Sale>, start: Timestamp)
    requires KeysUnique(rows, RowKey)
    ensures KeysUnique(AlertedRows(rows, sales, start), RowKey)
  {
    if rows != [] {
      var init := rows[..|rows| - 1];
      var last := rows[|rows| - 1];
      assert KeysUnique(init, RowKey) by {
        forall a, b | 0 <= a < b < |init| ensures RowKey(init[a]) != RowKey(init[b]) {
          assert init[a] == rows[a] && init[b] == rows[b];
        }
      }
      AlertedRowsKeysUnique(init, sales, start);
      var prefix := AlertedRows(init, sales, start);
      var kept := AlertedRows(rows, sales, start);
      if kept != prefix {
        forall a | 0 <= a < |prefix| ensures RowKey(kept[a]) != RowKey(last) {
          AlertedRowsIff(init, sales, start, prefix[a]);
          var j :| 0 <= j < |init| && init[j] == prefix[a];
          assert RowKey(rows[j]) != RowKey(rows[|rows| - 1]);
        }
      }
    }
  }

  /** The alert `a` reports row `r`: its columns, its estimate and one of its product's suppliers. */
  predicate AlertFor(a: Alert, r: Row, store: Store, start: Timestamp)
  {
    && a.productId == r.productId
    && a.productName == r.productName
    && a.sku == r.sku
    && a.warehouseId == r.warehouseId
    && a.warehouseName == r.warehouseName
    && a.currentStock == r.quantity
    && a.threshold == r.threshold
    && (var agg := SalesAggregate(store.sales, r.productId, r.warehouseId, start);
        agg.Some? && agg.value != 0 && a.daysUntilStockout == Some(DaysUntilStockout(r.quantity, agg.value)))
    && SupplierChoice(a.supplier, LinkedSuppliers(store, r.productId))
  }

  /** The report lists one alert per kept candidate row, in candidate order, and counts them. */
  predicate IsLowStockReport(report: Report, store: Store, companyId: int, now: Timestamp)
    ensures IsLowStockReport(report, store, companyId, now) ==> report.totalAlerts <= |store.inventory|
  {
    var start := WindowStart(now);
    var rows := AlertedRows(Candidates(store, companyId), store.sales, start);
    && report.totalAlerts == |report.alerts|
    && |report.alerts| == |rows|
    && forall k :: 0 <= k < |rows| ==> AlertFor(report.alerts[k], rows[k], store, start)
  }

  /** The alert loop of the handler: one pass over the candidate rows, appending an alert per row with sales. */
  method GetLowStockAlerts(store: Store, companyId: int, now: Timestamp) returns (report: Report)
    ensures IsLowStockReport(report, store, companyId, now)
  {
    var start := WindowStart(now);
    var results := Candidates(store, companyId);
    var alerts: seq<Alert> := [];
    for i := 0 to |results|
      invariant |alerts| == |AlertedRows(results[..i], store.sales, start)|
      invariant forall k :: 0 <= k < |alerts| ==>
        AlertFor(alerts[k], AlertedRows(results[..i], store.sales, start)[k], store, start)
    {
      var row := results[i];
      AlertedRowsStep(results, i, store.sales, start);
      var sales := SalesAggregate(store.sales, row.productId, row.warehouseId, start);
      if Silent(sales) {
        continue;
      }
      var daysLeft := if sales.value != 0 then Some(DaysUntilStockout(row.quantity, sales.value)) else None;
      var linked := LinkedSuppliers(store, row.productId);
      var supplier: Option<SupplierRef> := None;
      if linked != {} {
        var s :| s in linked;
        supplier := Some(s);
      }
      var alert := Alert(row.productId, row.productName, row.sku, row.warehouseId, row.warehouseName,
                         row.quantity, row.threshold, daysLeft, supplier);
      assert AlertFor(alert, row, store, start);
      alerts := alerts + [alert];
    }
    assert results[..|results|] == results;
    report := Report(alerts, |alerts|);
  }

  // ---------------------------------------------------------------------
  // Properties of every report

  /** Every alert is for stock strictly below its threshold and carries an estimate. */
  lemma AlertsBelowThreshold(report: Report, store: Store, companyId: int, now: Timestamp, k: int)
    requires IsLowStockReport(report, store, companyId, now)
    requires 0 <= k < |report.alerts|
    ensures report.alerts[k].currentStock < report.alerts[k].threshold
    ensures report.alerts[k].daysUntilStockout.Some?
  {
    var rows := AlertedRows(Candidates(store, companyId), store.sales, WindowStart(now));
    AlertedRowsIff(Candidates(store, companyId), store.sales, WindowStart(now), rows[k]);
  }

  /** A stock row at or above its product's threshold never appears in the report. */
  lemma NoAlertAtOrAboveThreshold(
    report: Report, store: Store, companyId: int, now: Timestamp, i: Inventory, p: Product)
    requires Valid(store)
    requires IsLowStockReport(report, store, companyId, now)
    requires i in store.inventory && p in store.products && p.id == i.productId
    requires i.quantity >= p.lowStockThreshold
    ensures forall a :: a in report.alerts ==> (a.productId, a.warehouseId) != (i.productId, i.warehouseId)
  {
    var start := WindowStart(now);
    var rows := AlertedRows(Candidates(store, companyId), store.sales, start);
    forall a | a in report.alerts ensures (a.productId, a.warehouseId) != (i.productId, i.warehouseId) {
      var k :| 0 <= k < |report.alerts| && report.alerts[k] == a;
      AlertedRowsIff(Candidates(store, companyId), store.sales, start, rows[k]);
      CandidateRowsSound(store.inventory, store.products, store.warehouses, companyId, rows[k]);
      var i', p', w' :| i' in store.inventory && p' in store.products && w' in store.warehouses
        && Selected(i', p', w', companyId) && rows[k] == JoinRow(p', i', w');
      if (a.productId, a.warehouseId) == (i.productId, i.warehouseId) {
        KeysUniqueSameRow(store.inventory, StockKey, i, i');
        KeysUniqueSameRow(store.products, ProductKey, p, p');
        assert false;
      }
    }
  }

  /** A (product, warehouse) pair with no sales, or sales summing to zero, in the window gets no alert. */
  lemma NoAlertWithoutSales(report: Report, store: Store, companyId: int, now: Timestamp, productId: int, warehouseId: int)
    requires IsLowStockReport(report, store, companyId, now)
    requires Silent(SalesAggregate(store.sales, productId, warehouseId, WindowStart(now)))
    ensures forall a :: a in report.alerts ==> (a.productId, a.warehouseId) != (productId, warehouseId)
  {
  }

  /** Every candidate row with a non-zero windowed total is reported. */
  lemma CandidateWithSalesAlerted(report: Report, store: Store, companyId: int, now: Timestamp, r: Row)
    requires IsLowStockReport(report, store, companyId, now)
    requires r in Candidates(store, companyId)
    requires !Silent(SalesAggregate(store.sales, r.productId, r.warehouseId, WindowStart(now)))
    ensures exists k :: 0 <= k < |report.alerts| && AlertFor(report.alerts[k], r, store, WindowStart(now))
  {
    var start := WindowStart(now);
    var rows := AlertedRows(Candidates(store, companyId), store.sales, start);
    AlertedRowsIff(Candidates(store, companyId), store.sales, start, r);
    var k :| 0 <= k < |rows| && rows[k] == r;
    assert AlertFor(report.alerts[k], r, store, start);
  }

  /** With one stock row per (product, warehouse), the report has at most one alert per pair. */
  lemma AlertPairsDistinct(report: Report, store: Store, companyId: int, now: Timestamp, j: int, k: int)
    requires Valid(store)
    requires IsLowStockReport(report, store, companyId, now)
    requires 0 <= j < k < |report.alerts|
    ensures (report.alerts[j].productId, report.alerts[j].warehouseId)
         != (report.alerts[k].productId, report.alerts[k].warehouseId)
  {
    var start := WindowStart(now);
    CandidateRowsKeysUnique(store.inventory, store.products, store.warehouses, companyId);
    AlertedRowsKeysUnique(Candidates(store, companyId), store.sales, start);
    var rows := AlertedRows(Candidates(store, companyId), store.sales, start);
    assert RowKey(rows[j]) != RowKey(rows[k]);
  }

  /**
   * When every link names an existing supplier, an alert's supplier is null
   * exactly when its product has no link, and otherwise is a linked supplier.
   */
  lemma SupplierNullIffUnlinked(report: Report, store: Store, companyId: int, now: Timestamp, k: int)
    requires LinksResolve(store)
    requires IsLowStockReport(report, store, companyId, now)
    requires 0 <= k < |report.alerts|
    ensures report.alerts[k].supplier.None? <==>
      forall l :: l in store.productSuppliers ==> l.productId != report.alerts[k].productId
    ensures report.alerts[k].supplier.Some? ==>
      exists l, s :: l in store.productSuppliers && s in store.suppliers
        && l.productId == report.alerts[k].productId && l.supplierId == s.id && report.alerts[k].supplier.value == Ref(s)
  {
    var a := report.alerts[k];
    if a.supplier.None? {
      forall l | l in store.productSuppliers ensures l.productId != a.productId {
        var s :| s in store.suppliers && s.id == l.supplierId;
        LinkedSupplier(store, l, s);
      }
    }
  }

  /** A company none of whose products is in the store (an unknown company, say) gets an empty report. */
  lemma NoAlertsWithoutProducts(report: Report, store: Store, companyId: int, now: Timestamp)
    requires forall p :: p in store.products ==> p.companyId != companyId
    requires IsLowStockReport(report, store, companyId, now)
    ensures report.alerts == [] && report.totalAlerts == 0
  {
    var rows := AlertedRows(Candidates(store, companyId), store.sales, WindowStart(now));
    if rows != [] {
      AlertedRowsIff(Candidates(store, companyId), store.sales, WindowStart(now), rows[0]);
      CandidateRowsSound(store.inventory, store.products, store.warehouses, companyId, rows[0]);
    }
  }
}
