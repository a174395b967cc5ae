/**
 * The rows of the inventory schema (products, warehouses, stock levels,
 * suppliers, the product-supplier link table and the sales log), and the
 * in-memory store that holds one table of each.
 *
 * Tables are sequences of rows in storage order; primary keys and the
 * per-(product, warehouse) uniqueness of stock rows are stated by `Valid`.
 */
module Records {
  import opened Wrappers

  /** An event time, as an integer count of seconds. */
  type Timestamp = int

  datatype Product = Product(
    id: int,
    companyId: int,
    name: string,
    sku: string,
    price: real,
    productType: string,
    lowStockThreshold: int)

  datatype Warehouse = Warehouse(id: int, companyId: int, name: string, location: Option<string>)

  /** Stock of one product at one warehouse. */
  datatype Inventory = Inventory(
    id: int,
    productId: int,
    warehouseId: int,
    quantity: int,
    updatedAt: Timestamp)

  datatype Supplier = Supplier(id: int, companyId: int, name: string, contactEmail: Option<string>)

  /** One row of the many-to-many link between products and suppliers. */
  datatype ProductSupplier = ProductSupplier(productId: int, supplierId: int)

  /** One stock-out event of the sales log. */
  datatype Sale = Sale(
    id: int,
    productId: int,
    warehouseId: int,
    quantity: int,
    createdAt: Timestamp)

  datatype Store = Store(
    products: seq<Product>,
    warehouses: seq<Warehouse>,
    inventory: seq<Inventory>,
    suppliers: seq<Supplier>,
    productSuppliers: seq<ProductSupplier>,
    sales: seq<Sale>)

  function ProductKey(p: Product): int { p.id }
  function WarehouseKey(w: Warehouse): int { w.id }
  function SupplierKey(s: Supplier): int { s.id }
  function StockKey(i: Inventory): (int, int) { (i.productId, i.warehouseId) }

  /** No two rows of `rows` share a key. */
  predicate KeysUnique<T, K(==)>(rows: seq<T>, key: T -> K)
  {
    forall a, b :: 0 <= a < b < |rows| ==> key(rows[a]) != key(rows[b])
  }

  /** Primary keys of products, warehouses and suppliers, and (product, warehouse) for stock rows. */
  predicate Valid(store: Store)
  {
    && KeysUnique(store.products, ProductKey)
    && KeysUnique(store.warehouses, WarehouseKey)
    && KeysUnique(store.suppliers, SupplierKey)
    && KeysUnique(store.inventory, StockKey)
  }

  /** Every link row names a supplier that exists. */
  predicate LinksResolve(store: Store)
  {
    forall l :: l in store.productSuppliers ==> exists s :: s in store.suppliers && s.id == l.supplierId
  }

  /** The first row whose key is `k`, as a lookup by primary key returns it. */
  function Lookup<T, K(==)>(rows: seq<T>, key: T -> K, k: K): (r: Option<T>)
    ensures r.Some? ==> r.value in rows && key(r.value) == k
    ensures r.None? ==> forall x :: x in rows ==> key(x) != k
  {
    if rows == [] then None
    else if key(rows[0]) == k then Some(rows[0])
    else Lookup(rows[1..], key, k)
  }

  /** With unique keys, two rows that share a key are the same row. */
  lemma KeysUniqueSameRow<T, K>(rows: seq<T>, key: T -> K, x: T, y: T)
    requires KeysUnique(rows, key)
    requires x in rows && y in rows && key(x) == key(y)
    ensures x == y
  {
  }

  /** With unique keys, looking up the key of a row finds that very row. */
  lemma LookupFindsRow<T, K>(rows: seq<T>, key: T -> K, x: T)
    requires KeysUnique(rows, key)
    requires x in rows
    ensures Lookup(rows, key, key(x)) == Some(x)
  {
  }
}
