/**
  What the checkout guarantees, stated about `Checkout.CheckoutSpec` (which `Checkout.Store`
  is proved to compute): which requests are refused, that a refusal changes nothing, the
  totals and the stored lines, the payment status and the customer link, the stock and the
  customer updates, and the invariant the database keeps.
*/
module CheckoutProperties {
  import opened Wrappers
  import opened Products
  import opened Transactions
  import opened Customers
  import opened Checkout

  // ---------------------------------------------------------------- refusals

  /** The checkout succeeds exactly when the request is valid, every line is available and the number is free. */
  lemma CheckoutSucceedsExactlyWhen(db: Db, req: CheckoutRequest, n: string)
    ensures CheckoutSpec(db, req, n).result.Ok? <==>
      && ValidRequest(req)
      && (forall i :: 0 <= i < |req.items| ==> LineAvailable(db.products, req.items[i]))
      && !NumberTaken(db.transactions, n)
  {
  }

  /** An empty cart, a quantity below 1, a negative price or an unknown payment method is refused before anything else. */
  lemma InvalidCartRejected(db: Db, req: CheckoutRequest, n: string)
    requires
      || |req.items| == 0
      || (exists i :: 0 <= i < |req.items| && (req.items[i].quantity < 1 || req.items[i].price < 0))
      || req.paymentMethod !in {Cash, Transfer, Qris, Receivables}
    ensures CheckoutSpec(db, req, n) == Outcome(db, Err(ValidationFailed))
  {
  }

  /**
    A valid request whose line `i` is the first with a missing product or too little stock
    fails with that line's error and changes nothing.
  */
  lemma FirstUnavailableLineReported(db: Db, req: CheckoutRequest, n: string, i: nat)
    requires ValidRequest(req) && i < |req.items| && !LineAvailable(db.products, req.items[i])
    requires forall j :: 0 <= j < i ==> LineAvailable(db.products, req.items[j])
    ensures CheckoutSpec(db, req, n) == Outcome(db, Err(LineFailure(db.products, req.items[i])))
  {
    FirstFailureAt(db.products, req.items, i);
  }

  // ---------------------------------------------------------------- the stored transaction

  /** The sum of the stored lines' totals. */
  function LinesTotal(lines: seq<LineItem>): int {
    if lines == [] then 0 else LinesTotal(lines[..|lines| - 1]) + lines[|lines| - 1].total
  }

  /** The snapshot has one line per request line, in order. */
  lemma {:induction false} SnapshotLines(products: map<nat, ProductRow>, items: seq<CartItem>)
    requires AllFound(products, items)
    ensures |Snapshot(products, items)| == |items|
    ensures forall k :: 0 <= k < |items| ==>
      Snapshot(products, items)[k] == SnapshotLine(products[items[k].productId], items[k])
  {
    if items != [] {
      var init := items[..|items| - 1];
      assert forall k :: 0 <= k < |init| ==> init[k] == items[k];
      SnapshotLines(products, init);
    }
  }

  /** The snapshot's line totals add up to the subtotal. */
  lemma {:induction false} SnapshotTotal(products: map<nat, ProductRow>, items: seq<CartItem>)
    requires AllFound(products, items)
    ensures LinesTotal(Snapshot(products, items)) == Subtotal(items)
  {
    if items != [] {
      var init := items[..|items| - 1];
      assert forall k :: 0 <= k < |init| ==> init[k] == items[k];
      assert AllFound(products, init);
      SnapshotTotal(products, init);
      var last := items[|items| - 1];
      var s := Snapshot(products, items);
      assert s == Snapshot(products, init) + [SnapshotLine(products[last.productId], last)];
      assert s[..|s| - 1] == Snapshot(products, init);
      assert LinesTotal(s) == LinesTotal(Snapshot(products, init)) + LineTotal(last);
    }
  }

  /** On success: subtotal = Σ quantity × price, total = subtotal − discount + tax (absent ones 0). */
  lemma CheckoutTotals(db: Db, req: CheckoutRequest, n: string)
    requires CheckoutSpec(db, req, n).result.Ok?
    ensures var t := CheckoutSpec(db, req, n).result.value;
      && t.subtotal == Subtotal(req.items)
      && t.discount == req.discount.GetOr(0)
      && t.tax == req.tax.GetOr(0)
      && t.totalAmount == t.subtotal - t.discount + t.tax
      && t.items.Some? && LinesTotal(t.items.value) == t.subtotal
  {
    SnapshotTotal(db.products, req.items);
  }

  /** On success the stored lines follow the request line by line, with the product's name and unit. */
  lemma CheckoutItems(db: Db, req: CheckoutRequest, n: string)
    requires CheckoutSpec(db, req, n).result.Ok?
    ensures var t := CheckoutSpec(db, req, n).result.value;
      && t.items.Some? && |t.items.value| == |req.items|
      && ItemsCount(t.items) == |req.items|
      && forall k :: 0 <= k < |req.items| ==>
        var it, line := req.items[k], t.items.value[k];
        && it.productId in db.products
        && line.productId == it.productId && line.quantity == it.quantity && line.price == it.price
        && line.total == it.quantity * it.price
        && line.productName == db.products[it.productId].name && line.unit == db.products[it.productId].unit
  {
    SnapshotLines(db.products, req.items);
  }

  /** On success: `pending` exactly on credit, `paid` otherwise; the name defaults to the walk-in customer. */
  lemma CheckoutStatusAndName(db: Db, req: CheckoutRequest, n: string)
    requires CheckoutSpec(db, req, n).result.Ok?
    ensures var t := CheckoutSpec(db, req, n).result.value;
      && (t.paymentStatus == Pending <==> req.paymentMethod == Receivables)
      && (t.paymentStatus == Paid <==> req.paymentMethod != Receivables)
      && t.customerName == (if req.customerName.Some? then req.customerName.value else WalkInCustomer)
      && t.paymentMethod == req.paymentMethod && t.storeId == req.storeId
      && t.notes == (if req.notes.Some? then req.notes.value else "")
      && t.cashierId == req.cashierId && t.cashierName == req.cashierName
      && t.transactionNumber == n && t.id == db.nextTransactionId
  {
  }

  /**
    On success a customer is linked exactly when a truthy name other than the walk-in name
    is given and a customer of the store has exactly that name; the first such one is linked.
  */
  lemma CheckoutCustomerLink(db: Db, req: CheckoutRequest, n: string)
    requires CheckoutSpec(db, req, n).result.Ok?
    ensures var t, name := CheckoutSpec(db, req, n).result.value, req.customerName;
      && (t.customerId.Some? <==>
        && name.Some? && IsTruthy(name.value) && name.value != WalkInCustomer
        && exists k :: 0 <= k < |db.customers| && NamedIn(db.customers[k], req.storeId, name.value))
      && (t.customerId.Some? ==>
        && name.Some?
        && exists k ::
          && 0 <= k < |db.customers| && NamedIn(db.customers[k], req.storeId, name.value)
          && (forall j :: 0 <= j < k ==> !NamedIn(db.customers[j], req.storeId, name.value))
          && db.customers[k].id == t.customerId.value)
  {
  }

  /** A discount above subtotal plus tax is accepted: the stored total is negative. */
  lemma NegativeTotalAccepted(db: Db, req: CheckoutRequest, n: string)
    requires ValidRequest(req) && !NumberTaken(db.transactions, n)
    requires forall i :: 0 <= i < |req.items| ==> LineAvailable(db.products, req.items[i])
    requires req.discount.GetOr(0) > Subtotal(req.items) + req.tax.GetOr(0)
    ensures CheckoutSpec(db, req, n).result.Ok? && CheckoutSpec(db, req, n).result.value.totalAmount < 0
  {
  }

  // ---------------------------------------------------------------- stock

  /** The quantity the lines for product `id` ask for together. */
  function QuantityFor(items: seq<CartItem>, id: nat): int {
    if items == [] then 0
    else QuantityFor(items[..|items| - 1], id) + (if items[|items| - 1].productId == id then items[|items| - 1].quantity else 0)
  }

  /** On success the stock of the products is the line-by-line decrement of the stock before. */
  lemma CheckoutStock(db: Db, req: CheckoutRequest, n: string)
    requires CheckoutSpec(db, req, n).result.Ok?
    ensures CheckoutSpec(db, req, n).db.products == ApplyDecrements(db.products, req.items)
  {
  }

  /**
    The decrements change only the stock, leave products no line names alone, and take
    exactly the requested quantity when the product has enough for all its lines. From a
    non-negative stock the result is the clamped difference `max(0, stock − Σq)`, so an
    oversold product ends at 0.
  */
  lemma {:induction false} ApplyDecrementsAt(products: map<nat, ProductRow>, items: seq<CartItem>, id: nat)
    requires id in products
    requires forall i :: 0 <= i < |items| ==> items[i].quantity >= 0
    ensures var after := ApplyDecrements(products, items)[id];
      && after == products[id].(stock := after.stock)
      && ((forall i :: 0 <= i < |items| ==> items[i].productId != id) ==> after == products[id])
      && (QuantityFor(items, id) <= products[id].stock ==> after.stock == products[id].stock - QuantityFor(items, id))
      && (products[id].stock >= 0 ==> after.stock == DecreasedStock(products[id].stock, QuantityFor(items, id)))
  {
    if items != [] {
      var init, last := items[..|items| - 1], items[|items| - 1];
      assert forall i :: 0 <= i < |init| ==> init[i] == items[i];
      ApplyDecrementsAt(products, init, id);
    }
  }

  /** No decrement makes a stock negative. */
  lemma {:induction false} ApplyDecrementsKeepsStockNonNegative(products: map<nat, ProductRow>, items: seq<CartItem>)
    requires forall id :: id in products ==> products[id].stock >= 0
    ensures forall id :: id in ApplyDecrements(products, items) ==> ApplyDecrements(products, items)[id].stock >= 0
  {
    if items != [] {
      ApplyDecrementsKeepsStockNonNegative(products, items[..|items| - 1]);
    }
  }

  /**
    Each line is checked against the stock before the checkout, so two lines of 3 pass
    against a stock of 5 together; the clamp then leaves 0 rather than −1.
  */
  lemma DuplicateLinesCanExceedStock()
    ensures
      var products := map[1 := ProductRow("s1", "Teh Botol", "TB-1", 300000, 350000, 5, "pcs", true)];
      var items := [CartItem(1, 3, 350000), CartItem(1, 3, 350000)];
      && FirstFailure(products, items) == None
      && QuantityFor(items, 1) == 6 > products[1].stock
      && ApplyDecrements(products, items)[1].stock == 0
  {
    var products := map[1 := ProductRow("s1", "Teh Botol", "TB-1", 300000, 350000, 5, "pcs", true)];
    var items := [CartItem(1, 3, 350000), CartItem(1, 3, 350000)];
    assert items[..1] == [items[0]] && [items[0]][..0] == [];
    assert ApplyDecrements(products, items[..1])[1].stock == 2;
  }

  // ---------------------------------------------------------------- customer

  /** The customer step for a row `t` just appended to `txs`, on a customer table where `t`'s customer exists. */
  lemma UpdatedCustomersEffect(customers: seq<CustomerRow>, txs: seq<TransactionRow>, t: TransactionRow, paymentMethod: string)
    requires t.paymentStatus == PaymentStatusFor(paymentMethod)
    requires t.customerId.Some? ==> IndexOfId(customers, t.customerId.value).Some?
    ensures t.customerId.None? ==> UpdatedCustomers(customers, t, paymentMethod, txs + [t]) == customers
    ensures t.customerId.Some? ==>
      var c := customers[IndexOfId(customers, t.customerId.value).value];
      UpdatedCustomers(customers, t, paymentMethod, txs + [t]) == ReplaceRow(customers,
        if paymentMethod == Receivables then
          c.(totalReceivables := c.totalReceivables + t.totalAmount)
        else
          c.(totalTransactions := PaidCount(txs, c.id) + 1, totalSpent := PaidTotal(txs, c.id) + t.totalAmount))
  {
    if t.customerId.Some? {
      PaidStatsAppend(txs, t, t.customerId.value);
    }
  }

  /** The customer the checkout links is one the table holds. */
  lemma ResolvedCustomerExists(customers: seq<CustomerRow>, storeId: string, customerName: Option<string>)
    ensures ResolveCustomer(customers, storeId, customerName).Some? ==>
      IndexOfId(customers, ResolveCustomer(customers, storeId, customerName).value).Some?
  {
  }

  /**
    On success: with no linked customer the customers are untouched. The linked customer is
    always found; on credit the total is added to its receivables and nothing else changes,
    otherwise its statistics become the paid count and paid sum before plus this transaction.
  */
  lemma CheckoutCustomerEffect(db: Db, req: CheckoutRequest, n: string)
    requires CheckoutSpec(db, req, n).result.Ok?
    ensures var out := CheckoutSpec(db, req, n); var t := out.result.value;
      && (t.customerId.None? ==> out.db.customers == db.customers)
      && (t.customerId.Some? ==> IndexOfId(db.customers, t.customerId.value).Some?)
      && (t.customerId.Some? ==>
        var c := db.customers[IndexOfId(db.customers, t.customerId.value).value];
        out.db.customers == ReplaceRow(db.customers,
          if req.paymentMethod == Receivables then
            c.(totalReceivables := c.totalReceivables + t.totalAmount)
          else
            c.(totalTransactions := PaidCount(db.transactions, c.id) + 1,
               totalSpent := PaidTotal(db.transactions, c.id) + t.totalAmount)))
  {
    CheckoutSuccessShape(db, req, n);
    var out := CheckoutSpec(db, req, n);
    CustomerStep(db.customers, db.transactions, out.result.value, req.paymentMethod, req.storeId, req.customerName, out.db.customers);
  }

  /** The customer step of a row that links the resolved customer and carries the method's status. */
  lemma CustomerStep(customers: seq<CustomerRow>, txs: seq<TransactionRow>, t: TransactionRow, paymentMethod: string,
                     storeId: string, customerName: Option<string>, result: seq<CustomerRow>)
    requires t.paymentStatus == PaymentStatusFor(paymentMethod)
    requires t.customerId == ResolveCustomer(customers, storeId, customerName)
    requires result == UpdatedCustomers(customers, t, paymentMethod, txs + [t])
    ensures t.customerId.None? ==> result == customers
    ensures t.customerId.Some? ==> IndexOfId(customers, t.customerId.value).Some?
    ensures t.customerId.Some? ==>
      var c := customers[IndexOfId(customers, t.customerId.value).value];
      result == ReplaceRow(customers,
        if paymentMethod == Receivables then
          c.(totalReceivables := c.totalReceivables + t.totalAmount)
        else
          c.(totalTransactions := PaidCount(txs, c.id) + 1, totalSpent := PaidTotal(txs, c.id) + t.totalAmount))
  {
    ResolvedCustomerExists(customers, storeId, customerName);
    UpdatedCustomersEffect(customers, txs, t, paymentMethod);
  }

  /** On success the stored row carries the resolved customer and the method's status, and the customers are the customer step's result. */
  lemma CheckoutSuccessShape(db: Db, req: CheckoutRequest, n: string)
    requires CheckoutSpec(db, req, n).result.Ok?
    ensures var out := CheckoutSpec(db, req, n); var t := out.result.value;
      && t.customerId == ResolveCustomer(db.customers, req.storeId, req.customerName)
      && t.paymentStatus == PaymentStatusFor(req.paymentMethod)
      && out.db.customers == UpdatedCustomers(db.customers, t, req.paymentMethod, db.transactions + [t])
  {
  }

  // ---------------------------------------------------------------- the transactions table

  /** On success exactly one row is appended, under the next id, and the numbers stay unique. */
  lemma CheckoutAppendsTransaction(db: Db, req: CheckoutRequest, n: string)
    requires CheckoutSpec(db, req, n).result.Ok?
    ensures var out := CheckoutSpec(db, req, n);
      && out.db.transactions == db.transactions + [out.result.value]
      && out.db.nextTransactionId == db.nextTransactionId + 1
      && (UniqueNumbers(db.transactions) ==> UniqueNumbers(out.db.transactions))
  {
  }

  /** The customer step rewrites at most one customer's row in place: no row is added or removed and every id stays. */
  lemma UpdatedCustomersKeepIds(customers: seq<CustomerRow>, t: TransactionRow, paymentMethod: string, txs: seq<TransactionRow>)
    ensures |UpdatedCustomers(customers, t, paymentMethod, txs)| == |customers|
    ensures forall i :: 0 <= i < |customers| ==> UpdatedCustomers(customers, t, paymentMethod, txs)[i].id == customers[i].id
  {
    if t.customerId.Some? && IndexOfId(customers, t.customerId.value).Some? {
      var k := IndexOfId(customers, t.customerId.value).value;
      ReplaceRowKeepsIds(customers, CustomerEffect(customers[k], paymentMethod, t, txs));
    }
  }

  /** A checkout adds or removes no product and no customer, and changes no customer's id. */
  lemma CheckoutKeepsKeys(db: Db, req: CheckoutRequest, n: string)
    ensures var out := CheckoutSpec(db, req, n);
      && out.db.products.Keys == db.products.Keys
      && |out.db.customers| == |db.customers|
      && forall i :: 0 <= i < |db.customers| ==> out.db.customers[i].id == db.customers[i].id
  {
    var out := CheckoutSpec(db, req, n);
    if out.result.Ok? {
      var t := out.result.value;
      assert out.db.customers == UpdatedCustomers(db.customers, t, req.paymentMethod, db.transactions + [t]);
      UpdatedCustomersKeepIds(db.customers, t, req.paymentMethod, db.transactions + [t]);
    }
  }

  /** What every checkout keeps: no negative stock, unique numbers, ids below the counter. */
  predicate DbInvariant(db: Db) {
    && (forall id :: id in db.products ==> db.products[id].stock >= 0)
    && UniqueNumbers(db.transactions)
    && (forall i :: 0 <= i < |db.transactions| ==> db.transactions[i].id < db.nextTransactionId)
    && UniqueIds(db.customers)
  }

  lemma CheckoutPreservesInvariant(db: Db, req: CheckoutRequest, n: string)
    requires DbInvariant(db)
    ensures DbInvariant(CheckoutSpec(db, req, n).db)
  {
    if CheckoutSpec(db, req, n).result.Ok? {
      ApplyDecrementsKeepsStockNonNegative(db.products, req.items);
      CheckoutKeepsKeys(db, req, n);
    }
  }
}
