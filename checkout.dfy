/**
  The point-of-sale checkout (`TransactionsController::store`): validate the cart, check
  every line against the product's current stock, snapshot the lines, total them, resolve
  the customer by exact name, write the transaction, decrement the stock line by line and
  update the customer's receivables or statistics -- all or nothing.

  `CheckoutSpec` is the whole operation as a function of the database state; `Store` is the
  controller's step-by-step code, proved to produce exactly that.
*/
module Checkout {
  import opened Wrappers
  import opened Products
  import opened Transactions
  import opened Customers

  /** One requested line; the price is in cents. */
  datatype CartItem = CartItem(productId: nat, quantity: int, price: int)

  /**
    The checkout request. A required string that is absent is the empty string; the
    nullable fields are options.
  */
  datatype CheckoutRequest = CheckoutRequest(
    storeId: string,
    items: seq<CartItem>,
    paymentMethod: string,
    customerName: Option<string>,
    discount: Option<int>,
    tax: Option<int>,
    notes: Option<string>,
    cashierId: string,
    cashierName: string)

  datatype CheckoutError =
    | ValidationFailed
    | ProductNotFound(productId: nat)
    | InsufficientStock(productName: string, available: int)
    | StorageFailed  // the insert violated the unique transaction number

  // ---------------------------------------------------------------- validation

  /** The characters PHP's `trim` removes. */
  predicate IsTrimmed(c: char) {
    c == ' ' || c == '\t' || c == '\n' || c == '\r' || c == '\0' || c == 11 as char
  }

  /** Laravel's `required` on a string: something is left after trimming. */
  predicate Filled(s: string) {
    exists i :: 0 <= i < |s| && !IsTrimmed(s[i])
  }

  predicate PaymentMethodAllowed(m: string) {
    m in {Cash, Transfer, Qris, Receivables}
  }

  predicate ValidItem(it: CartItem) {
    it.quantity >= 1 && it.price >= 0
  }

  /** The validator's rules: the request is refused before anything is read or written unless all hold. */
  predicate ValidRequest(req: CheckoutRequest) {
    && Filled(req.storeId)
    && |req.items| >= 1
    && (forall i :: 0 <= i < |req.items| ==> ValidItem(req.items[i]))
    && PaymentMethodAllowed(req.paymentMethod)
    && (req.discount.Some? ==> req.discount.value >= 0)
    && (req.tax.Some? ==> req.tax.value >= 0)
    && Filled(req.cashierId)
    && Filled(req.cashierName)
  }

  // ---------------------------------------------------------------- lines and totals

  function LineTotal(it: CartItem): int {
    it.quantity * it.price
  }

  /** Σ quantity × price over the lines, accumulated left to right. */
  function Subtotal(items: seq<CartItem>): int {
    if items == [] then 0 else Subtotal(items[..|items| - 1]) + LineTotal(items[|items| - 1])
  }

  /** `subtotal − discount + tax`, an absent discount or tax counting as 0. */
  function TotalAmount(req: CheckoutRequest): int {
    Subtotal(req.items) - req.discount.GetOr(0) + req.tax.GetOr(0)
  }

  /** The line's product exists (looked up by id, in any store) and has at least the requested stock. */
  predicate LineAvailable(products: map<nat, ProductRow>, it: CartItem) {
    it.productId in products && products[it.productId].stock >= it.quantity
  }

  function LineFailure(products: map<nat, ProductRow>, it: CartItem): CheckoutError
    requires !LineAvailable(products, it)
  {
    if it.productId !in products then ProductNotFound(it.productId)
    else InsufficientStock(products[it.productId].name, products[it.productId].stock)
  }

  /** The error of the first line that is not available, each line checked against the stock before the checkout. */
  function FirstFailure(products: map<nat, ProductRow>, items: seq<CartItem>): (e: Option<CheckoutError>)
    ensures e.None? <==> forall i :: 0 <= i < |items| ==> LineAvailable(products, items[i])
  {
    if items == [] then None
    else if !LineAvailable(products, items[0]) then Some(LineFailure(products, items[0]))
    else
      var e := FirstFailure(products, items[1..]);
      assert forall i :: 1 <= i < |items| ==> items[1..][i - 1] == items[i];
      e
  }

  /** The lines before `i` are available and line `i` is not: the checkout reports line `i`. */
  lemma {:induction false} FirstFailureAt(products: map<nat, ProductRow>, items: seq<CartItem>, i: nat)
    requires i < |items| && !LineAvailable(products, items[i])
    requires forall j :: 0 <= j < i ==> LineAvailable(products, items[j])
    ensures FirstFailure(products, items) == Some(LineFailure(products, items[i]))
  {
    if i > 0 {
      assert LineAvailable(products, items[0]);
      assert forall j :: 0 <= j < i - 1 ==> items[1..][j] == items[j + 1];
      FirstFailureAt(products, items[1..], i - 1);
    }
  }

  predicate AllFound(products: map<nat, ProductRow>, items: seq<CartItem>) {
    forall i :: 0 <= i < |items| ==> items[i].productId in products
  }

  /** The stored line: the request's id, quantity and price, the product's name and unit. */
  function SnapshotLine(p: ProductRow, it: CartItem): LineItem {
    LineItem(it.productId, p.name, it.quantity, it.price, LineTotal(it), p.unit)
  }

  /** `$processedItems`, built line by line. */
  function Snapshot(products: map<nat, ProductRow>, items: seq<CartItem>): seq<LineItem>
    requires AllFound(products, items)
  {
    if items == [] then []
    else
      var last := items[|items| - 1];
      Snapshot(products, items[..|items| - 1]) + [SnapshotLine(products[last.productId], last)]
  }

  // ---------------------------------------------------------------- stock

  /** `Product::find($id)->decreaseStock($quantity)` for one line. */
  function DecrementLine(products: map<nat, ProductRow>, it: CartItem): map<nat, ProductRow> {
    if it.productId in products then
      var p := products[it.productId];
      products[it.productId := p.(stock := DecreasedStock(p.stock, it.quantity))]
    else products
  }

  /** The stock loop: each line's decrement applied in order to the stock the previous ones left. */
  function ApplyDecrements(products: map<nat, ProductRow>, items: seq<CartItem>): (r: map<nat, ProductRow>)
    ensures r.Keys == products.Keys
  {
    if items == [] then products
    else DecrementLine(ApplyDecrements(products, items[..|items| - 1]), items[|items| - 1])
  }

  // ---------------------------------------------------------------- customer

  /** PHP truthiness of a string: all strings but "" and "0". */
  predicate IsTruthy(s: string) {
    s != "" && s != "0"
  }

  predicate NamedIn(c: CustomerRow, storeId: string, name: string) {
    c.storeId == storeId && c.name == name
  }

  /** `Customer::where('store_id', …)->where('name', …)->first()`: the position of the first match. */
  function FirstNamed(customers: seq<CustomerRow>, storeId: string, name: string): (k: Option<nat>)
    ensures k.Some? ==> k.value < |customers| && NamedIn(customers[k.value], storeId, name)
    ensures k.Some? ==> forall j :: 0 <= j < k.value ==> !NamedIn(customers[j], storeId, name)
    ensures k.None? ==> forall j :: 0 <= j < |customers| ==> !NamedIn(customers[j], storeId, name)
  {
    if customers == [] then None
    else if NamedIn(customers[0], storeId, name) then Some(0)
    else match FirstNamed(customers[1..], storeId, name)
      case Some(k) => Some(k + 1)
      case None => None
  }

  /** The `customer_id` the checkout stores. */
  function ResolveCustomer(customers: seq<CustomerRow>, storeId: string, customerName: Option<string>): (r: Option<nat>)
    ensures r.Some? <==>
      && customerName.Some? && IsTruthy(customerName.value) && customerName.value != WalkInCustomer
      && FirstNamed(customers, storeId, customerName.value).Some?
    ensures r.Some? ==> r.value == customers[FirstNamed(customers, storeId, customerName.value).value].id
  {
    if customerName.Some? && IsTruthy(customerName.value) && customerName.value != WalkInCustomer then
      match FirstNamed(customers, storeId, customerName.value)
      case Some(k) => Some(customers[k].id)
      case None => None
    else None
  }

  function PaymentStatusFor(paymentMethod: string): string {
    if paymentMethod == Receivables then Pending else Paid
  }

  /** The resolved customer's row after the checkout wrote transaction `t` into `txs`. */
  function CustomerEffect(c: CustomerRow, paymentMethod: string, t: TransactionRow, txs: seq<TransactionRow>): CustomerRow {
    var c1 := if paymentMethod == Receivables then c.(totalReceivables := AddedReceivables(c.totalReceivables, t.totalAmount)) else c;
    if t.paymentStatus == Paid then RefreshedStats(c1, txs) else c1
  }

  function UpdatedCustomers(customers: seq<CustomerRow>, t: TransactionRow, paymentMethod: string, txs: seq<TransactionRow>): seq<CustomerRow> {
    if t.customerId.None? then customers
    else match IndexOfId(customers, t.customerId.value)
      case None => customers
      case Some(k) => ReplaceRow(customers, CustomerEffect(customers[k], paymentMethod, t, txs))
  }

  // ---------------------------------------------------------------- the whole checkout

  /** The attributes the controller passes to `Transaction::create`. */
  function CheckoutDraft(products: map<nat, ProductRow>, customers: seq<CustomerRow>, req: CheckoutRequest, number: string): Draft
    requires AllFound(products, req.items)
  {
    Draft(
      req.storeId, number, Some(req.customerName.GetOr(WalkInCustomer)),
      ResolveCustomer(customers, req.storeId, req.customerName), Snapshot(products, req.items),
      Some(Subtotal(req.items)), Some(req.discount.GetOr(0)), Some(req.tax.GetOr(0)), TotalAmount(req),
      req.paymentMethod, Some(PaymentStatusFor(req.paymentMethod)), req.notes.GetOr(""),
      req.cashierId, req.cashierName)
  }

  /** The database the checkout reads and writes. */
  datatype Db = Db(
    products: map<nat, ProductRow>,
    customers: seq<CustomerRow>,
    transactions: seq<TransactionRow>,
    nextTransactionId: nat)

  datatype Outcome = Outcome(db: Db, result: Result<TransactionRow, CheckoutError>)

  /**
    The checkout as one atomic step: on any error the database is handed back as it was;
    the transaction number is an input (the clock and the random digest are outside).
  */
  function CheckoutSpec(db: Db, req: CheckoutRequest, number: string): (r: Outcome)
    ensures r.result.Err? ==> r.db == db
  {
    if !ValidRequest(req) then Outcome(db, Err(ValidationFailed))
    else match FirstFailure(db.products, req.items)
      case Some(e) => Outcome(db, Err(e))
      case None =>
        if NumberTaken(db.transactions, number) then Outcome(db, Err(StorageFailed))
        else
          var t := FillDefaults(CheckoutDraft(db.products, db.customers, req, number), db.nextTransactionId);
          var txs := db.transactions + [t];
          var products := ApplyDecrements(db.products, req.items);
          var customers := UpdatedCustomers(db.customers, t, req.paymentMethod, txs);
          Outcome(Db(products, customers, txs, db.nextTransactionId + 1), Ok(t))
  }

  /**
    The controller's first loop: look each line's product up, stop at the first line whose
    product is missing or short of stock, and otherwise total and snapshot the lines.
  */
  method CheckLines(products: ProductTable, items: seq<CartItem>)
    returns (failure: Option<CheckoutError>, subtotal: int, processedItems: seq<LineItem>)
    ensures failure == FirstFailure(products.rows, items)
    ensures failure.None? ==> AllFound(products.rows, items)
    ensures failure.None? ==> subtotal == Subtotal(items) && processedItems == Snapshot(products.rows, items)
  {
    subtotal := 0;
    processedItems := [];
    for i := 0 to |items|
      invariant forall j :: 0 <= j < i ==> LineAvailable(products.rows, items[j])
      invariant subtotal == Subtotal(items[..i])
      invariant processedItems == Snapshot(products.rows, items[..i])
    {
      var item := items[i];
      var itemTotal := item.quantity * item.price;
      subtotal := subtotal + itemTotal;
      assert items[..i + 1][..i] == items[..i];
      var product := Product.Find(products, item.productId);
      if product == null {
        FirstFailureAt(products.rows, items, i);
        return Some(ProductNotFound(item.productId)), subtotal, processedItems;
      }
      if product.stock < item.quantity {
        FirstFailureAt(products.rows, items, i);
        return Some(InsufficientStock(product.name, product.stock)), subtotal, processedItems;
      }
      processedItems := processedItems + [LineItem(item.productId, product.name, item.quantity, item.price, itemTotal, product.unit)];
    }
    assert items[..|items|] == items;
    failure := None;
  }

  /** The controller's second loop: re-read each line's product and decrement its stock. */
  method DecrementStock(products: ProductTable, items: seq<CartItem>)
    requires AllFound(products.rows, items)
    modifies products
    ensures products.rows == ApplyDecrements(old(products.rows), items)
  {
    for i := 0 to |items|
      invariant products.rows == ApplyDecrements(old(products.rows), items[..i])
    {
      var item := items[i];
      assert items[..i + 1][..i] == items[..i];
      var product := Product.Find(products, item.productId);
      product.DecreaseStock(item.quantity);
    }
    assert items[..|items|] == items;
  }

  /**
    The controller's customer step for the transaction just written: find the customer by
    id; add the total to the receivables on credit, refresh the statistics when paid.
  */
  method SettleCustomer(
    customers: CustomerTable, transactions: TransactionTable,
    customerId: Option<nat>, paymentMethod: string, transaction: TransactionRow)
    requires transaction.customerId == customerId
    requires transaction.paymentStatus == PaymentStatusFor(paymentMethod)
    modifies customers
    ensures customers.rows == UpdatedCustomers(old(customers.rows), transaction, paymentMethod, transactions.rows)
  {
    if customerId.Some? {
      var customer := Customer.Find(customers, customerId.value);
      if customer != null {
        if paymentMethod == Receivables {
          customer.AddReceivables(transaction.totalAmount, "Transaksi #" + transaction.transactionNumber);
        }
        if transaction.paymentStatus == Paid {
          customer.UpdateTransactionStats(transactions);
        }
      }
    }
  }

  /** `store()`: the controller's code over the three tables. */
  method Store(
    products: ProductTable, customers: CustomerTable, transactions: TransactionTable,
    req: CheckoutRequest, transactionNumber: string)
    returns (r: Result<TransactionRow, CheckoutError>)
    modifies products, customers, transactions
    ensures var out := CheckoutSpec(
        Db(old(products.rows), old(customers.rows), old(transactions.rows), old(transactions.nextId)),
        req, transactionNumber);
      && r == out.result
      && products.rows == out.db.products
      && customers.rows == out.db.customers
      && transactions.rows == out.db.transactions
      && transactions.nextId == out.db.nextTransactionId
  {
    ghost var db := Db(products.rows, customers.rows, transactions.rows, transactions.nextId);
    if !ValidRequest(req) {
      return Err(ValidationFailed);
    }
    var items := req.items;

    var failure, subtotal, processedItems := CheckLines(products, items);
    if failure.Some? {
      return Err(failure.value);
    }

    var discount := req.discount.GetOr(0);
    var tax := req.tax.GetOr(0);
    var totalAmount := subtotal - discount + tax;

    var customerId: Option<nat> := None;
    if req.customerName.Some? && IsTruthy(req.customerName.value) && req.customerName.value != WalkInCustomer {
      var k := FirstNamed(customers.rows, req.storeId, req.customerName.value);
      if k.Some? {
        customerId := Some(customers.rows[k.value].id);
      }
    }
    assert customerId == ResolveCustomer(db.customers, req.storeId, req.customerName);

    var draft := Draft(
      req.storeId, transactionNumber, Some(req.customerName.GetOr(WalkInCustomer)), customerId,
      processedItems, Some(subtotal), Some(discount), Some(tax), totalAmount, req.paymentMethod,
      Some(if req.paymentMethod == Receivables then Pending else Paid), req.notes.GetOr(""),
      req.cashierId, req.cashierName);
    assert draft == CheckoutDraft(db.products, db.customers, req, transactionNumber);
    var created := transactions.Create(draft);
    if created.None? {
      return Err(StorageFailed);
    }
    var transaction := created.value;
    assert CheckoutSpec(db, req, transactionNumber) == Outcome(
      Db(ApplyDecrements(db.products, items),
        UpdatedCustomers(db.customers, transaction, req.paymentMethod, transactions.rows),
        transactions.rows, transactions.nextId),
      Ok(transaction));

    DecrementStock(products, items);
    SettleCustomer(customers, transactions, customerId, req.paymentMethod, transaction);
    return Ok(transaction);
  }
}
