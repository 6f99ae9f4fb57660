/**
  The Product model: the stock operations, the stock predicates and scopes, and the
  "Rp " price accessors. Rows live in a `ProductTable`; a `Product` object is the
  model instance loaded from one row, whose mutating methods write the row back
  (Eloquent's `save()`).
*/
module Products {
  import opened Wrappers
  import opened NumberFormat

  /** A `products` row; the table is keyed by id. Prices are in cents. */
  datatype ProductRow = ProductRow(
    storeId: string,
    name: string,
    sku: string,
    price: int,
    priceSell: int,
    stock: int,
    unit: string,
    isActive: bool)

  /** The threshold `is_low_stock` uses and `lowStock` defaults to. */
  const LowStockThreshold: int := 10

  /** The stock after `decreaseStock(q)`: the difference, clamped at zero. */
  function DecreasedStock(stock: int, q: int): (r: int)
    ensures r >= 0
    ensures q <= stock ==> r == stock - q
    ensures stock < q ==> r == 0
  {
    if stock - q > 0 then stock - q else 0
  }

  /** The stock after `increaseStock(q)`. */
  function IncreasedStock(stock: int, q: int): int {
    stock + q
  }

  /** The stock after `updateStock(q)`: the new quantity, clamped at zero. */
  function SetStock(q: int): (r: int)
    ensures r >= 0
    ensures q >= 0 ==> r == q
    ensures q < 0 ==> r == 0
  {
    if q > 0 then q else 0
  }

  /** On non-negative stock, an increase by `q >= 0` followed by a decrease by `q` restores it. */
  lemma IncreaseThenDecrease(stock: int, q: int)
    requires stock >= 0 && q >= 0
    ensures DecreasedStock(IncreasedStock(stock, q), q) == stock
  {
  }

  /** Setting the stock twice to the same quantity is the same as setting it once. */
  lemma SetStockIdempotent(q: int)
    ensures SetStock(SetStock(q)) == SetStock(q)
  {
  }

  /** `is_low_stock`. */
  predicate IsLowStock(p: ProductRow) {
    p.stock <= LowStockThreshold
  }

  /** `is_out_of_stock`. */
  predicate IsOutOfStock(p: ProductRow) {
    p.stock <= 0
  }

  /** A product that is out of stock is also low on stock. */
  lemma OutOfStockIsLowStock(p: ProductRow)
    ensures IsOutOfStock(p) ==> IsLowStock(p)
  {
  }

  /** The `lowStock` scope: the rows, in order, whose stock is at most `threshold`. */
  function ScopeLowStock(rows: seq<ProductRow>, threshold: int := LowStockThreshold): (r: seq<ProductRow>)
    ensures |r| <= |rows|
    ensures forall p :: p in r <==> p in rows && p.stock <= threshold
  {
    if rows == [] then []
    else (if rows[0].stock <= threshold then [rows[0]] else []) + ScopeLowStock(rows[1..], threshold)
  }

  /** The `inStock` scope: the rows, in order, whose stock is positive. */
  function ScopeInStock(rows: seq<ProductRow>): (r: seq<ProductRow>)
    ensures |r| <= |rows|
    ensures forall p :: p in r <==> p in rows && p.stock > 0
  {
    if rows == [] then []
    else (if rows[0].stock > 0 then [rows[0]] else []) + ScopeInStock(rows[1..])
  }

  /** `inStock` keeps exactly the rows that are not out of stock, and `lowStock()` exactly the low-stock rows. */
  lemma ScopesMatchPredicates(rows: seq<ProductRow>, p: ProductRow)
    requires p in rows
    ensures p in ScopeInStock(rows) <==> !IsOutOfStock(p)
    ensures p in ScopeLowStock(rows) <==> IsLowStock(p)
  {
  }

  /** `formatted_price`. */
  function FormattedPrice(p: ProductRow): (r: string)
    ensures RupiahText(r, p.price)
    ensures ParseRupiah(r) == Some(RoundedUnits(p.price))
  {
    RupiahRoundTrip(p.price);
    Rupiah(p.price)
  }

  /** `formatted_price_sell`. */
  function FormattedPriceSell(p: ProductRow): (r: string)
    ensures RupiahText(r, p.priceSell)
    ensures ParseRupiah(r) == Some(RoundedUnits(p.priceSell))
  {
    RupiahRoundTrip(p.priceSell);
    Rupiah(p.priceSell)
  }

  /** The `products` table. */
  class ProductTable {
    var rows: map<nat, ProductRow>

    constructor (rows: map<nat, ProductRow>)
      ensures this.rows == rows
    {
      this.rows := rows;
    }
  }

  /** A Product model instance, loaded from the row `id` of `table`. */
  class Product {
    const table: ProductTable
    const id: nat
    var storeId: string
    var name: string
    var sku: string
    var price: int
    var priceSell: int
    var stock: int
    var unit: string
    var isActive: bool

    /** The row this instance would save. */
    function Row(): ProductRow
      reads this
    {
      ProductRow(storeId, name, sku, price, priceSell, stock, unit, isActive)
    }

    constructor Load(table: ProductTable, id: nat)
      requires id in table.rows
      ensures this.table == table && this.id == id
      ensures Row() == table.rows[id]
    {
      var row := table.rows[id];
      this.table, this.id := table, id;
      storeId, name, sku := row.storeId, row.name, row.sku;
      price, priceSell, stock := row.price, row.priceSell, row.stock;
      unit, isActive := row.unit, row.isActive;
    }

    /** `Product::find($id)`: a fresh instance of the row, or null when there is none. */
    static method Find(table: ProductTable, id: nat) returns (p: Product?)
      ensures p == null <==> id !in table.rows
      ensures p != null ==> fresh(p) && p.table == table && p.id == id && p.Row() == table.rows[id]
    {
      if id in table.rows {
        p := new Product.Load(table, id);
      } else {
        p := null;
      }
    }

    /** `save()`: writes this instance back over its row. */
    method Save()
      modifies table
      ensures table.rows == old(table.rows)[id := Row()]
    {
      table.rows := table.rows[id := Row()];
    }

    /** `decreaseStock($quantity)`. */
    method DecreaseStock(quantity: int)
      modifies this, table
      ensures stock == DecreasedStock(old(stock), quantity)
      ensures Row() == old(Row()).(stock := stock)
      ensures table.rows == old(table.rows)[id := Row()]
    {
      stock := if stock - quantity > 0 then stock - quantity else 0;
      Save();
    }

    /** `increaseStock($quantity)`. */
    method IncreaseStock(quantity: int)
      modifies this, table
      ensures stock == IncreasedStock(old(stock), quantity)
      ensures Row() == old(Row()).(stock := stock)
      ensures table.rows == old(table.rows)[id := Row()]
    {
      stock := stock + quantity;
      Save();
    }

    /** `updateStock($quantity)`. */
    method UpdateStock(quantity: int)
      modifies this, table
      ensures stock == SetStock(quantity)
      ensures Row() == old(Row()).(stock := stock)
      ensures table.rows == old(table.rows)[id := Row()]
    {
      stock := if quantity > 0 then quantity else 0;
      Save();
    }
  }
}
