/**
 * Worked examples of the low-stock report on a small store: four products of
 * company 1, each stocked at warehouse 10, with threshold 10.
 *
 * - A: 5 on hand, 30 sold in the last 30 days: alerted, 5 days left;
 * - B: 8 on hand, no recent sales: dropped;
 * - C: 10 on hand, exactly at the threshold: not a candidate;
 * - D: 3 on hand, 1 sold in the last 30 days: alerted, 90 days left.
 */
module LowStockScenarios {
  import opened Wrappers
  import opened Records
  import opened LowStock

  const NOW: Timestamp := 100 * 86400

  function Item(id: int, name: string): Product
  {
    Product(id, 1, name, name, 0.0, "simple", 10)
  }

  function ExampleStore(): Store
  {
    Store(
      [Item(1, "A"), Item(2, "B"), Item(3, "C"), Item(4, "D")],
      [Warehouse(10, 1, "Main", None)],
      [Inventory(100, 1, 10, 5, 0), Inventory(101, 2, 10, 8, 0), Inventory(102, 3, 10, 10, 0), Inventory(103, 4, 10, 3, 0)],
      [Supplier(7, 1, "Acme", Some("orders@acme.test"))],
      [ProductSupplier(1, 7)],
      [Sale(1, 1, 10, 30, NOW - 86400), Sale(2, 2, 10, 4, NOW - 40 * 86400), Sale(3, 4, 10, 1, NOW - 29 * 86400)])
  }

  function RowOf(p: Product, quantity: int): Row
  {
    Row(p.id, p.name, p.sku, 10, quantity, 10, "Main")
  }

  /** C (at its threshold) is not a candidate; A, B and D are, in stock-row order. */
  lemma ExampleCandidates()
    ensures Candidates(ExampleStore(), 1) == [RowOf(Item(1, "A"), 5), RowOf(Item(2, "B"), 8), RowOf(Item(4, "D"), 3)]
  {
  }

  /** A sold 30 and D sold 1 in the window; B's only sale is 40 days old. */
  lemma ExampleSales()
    ensures SalesAggregate(ExampleStore().sales, 1, 10, WindowStart(NOW)) == Some(30)
    ensures SalesAggregate(ExampleStore().sales, 2, 10, WindowStart(NOW)) == None
    ensures SalesAggregate(ExampleStore().sales, 4, 10, WindowStart(NOW)) == Some(1)
  {
    var sales := ExampleStore().sales;
    var start := WindowStart(NOW);
    assert sales[1..][1..] == sales[2..] && sales[2..][1..] == [];
    assert WindowSales(sales[2..], 1, 10, start) == [];
    assert WindowSales(sales[1..], 1, 10, start) == [];
    assert WindowSales(sales, 1, 10, start) == [sales[0]];
    assert Total([sales[0]]) == 30 + Total([]);
    assert WindowSales(sales[2..], 2, 10, start) == [];
    assert WindowSales(sales[1..], 2, 10, start) == [];
    assert WindowSales(sales, 2, 10, start) == [];
    assert WindowSales(sales[2..], 4, 10, start) == [sales[2]];
    assert WindowSales(sales[1..], 4, 10, start) == [sales[2]];
    assert WindowSales(sales, 4, 10, start) == [sales[2]];
    assert Total([sales[2]]) == 1 + Total([]);
  }

  /** A has exactly one linked supplier; D has none. */
  lemma ExampleSuppliers()
    ensures LinkedSuppliers(ExampleStore(), 1) == {SupplierRef(7, "Acme", Some("orders@acme.test"))}
    ensures LinkedSuppliers(ExampleStore(), 4) == {}
  {
  }

  lemma KeepFirstAndLast(a: Row, b: Row, c: Row, sales: seq<Sale>, start: Timestamp)
    requires !Silent(SalesAggregate(sales, a.productId, a.warehouseId, start))
    requires Silent(SalesAggregate(sales, b.productId, b.warehouseId, start))
    requires !Silent(SalesAggregate(sales, c.productId, c.warehouseId, start))
    ensures AlertedRows([a, b, c], sales, start) == [a, c]
  {
    assert [a, b, c][..2] == [a, b] && [a, b][..1] == [a] && [a][..0] == [];
    assert AlertedRows([a], sales, start) == [a];
    assert AlertedRows([a, b], sales, start) == [a];
  }

  /** B has no sales in the window, so only A and D are kept. */
  lemma ExampleKeptRows()
    ensures AlertedRows(Candidates(ExampleStore(), 1), ExampleStore().sales, WindowStart(NOW))
         == [RowOf(Item(1, "A"), 5), RowOf(Item(4, "D"), 3)]
  {
    ExampleCandidates();
    ExampleSales();
    KeepFirstAndLast(RowOf(Item(1, "A"), 5), RowOf(Item(2, "B"), 8), RowOf(Item(4, "D"), 3),
                     ExampleStore().sales, WindowStart(NOW));
  }

  /** The report on the example store: A with 5 days left and its supplier, then D with 90 days left and none. */
  lemma ExampleReport(report: Report)
    requires IsLowStockReport(report, ExampleStore(), 1, NOW)
    ensures |report.alerts| == 2 && report.totalAlerts == 2
    ensures report.alerts[0].productId == 1 && report.alerts[0].daysUntilStockout == Some(5)
    ensures report.alerts[0].supplier == Some(SupplierRef(7, "Acme", Some("orders@acme.test")))
    ensures report.alerts[1].productId == 4 && report.alerts[1].daysUntilStockout == Some(90)
    ensures report.alerts[1].supplier == None
  {
    var store := ExampleStore();
    var start := WindowStart(NOW);
    ExampleKeptRows();
    ExampleSales();
    ExampleSuppliers();
    DaysUntilStockoutExamples();
    var kept := AlertedRows(Candidates(store, 1), store.sales, start);
    assert AlertFor(report.alerts[0], kept[0], store, start);
    assert AlertFor(report.alerts[1], kept[1], store, start);
  }
}
