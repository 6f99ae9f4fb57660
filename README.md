# Point-of-sale checkout, modelled in Dafny

This project models the checkout core of a Laravel point-of-sale backend and proves properties of it:

- **Checkout** (`TransactionsController::store`). It validates a cart and checks every line against its product's stock. It snapshots the lines and computes subtotal and total. It links a customer whose name equals the given one (the model compares strings exactly; see "## Left out") and derives the payment status from the payment method. It writes the transaction, decrements the stock line by line and updates the customer's receivables or statistics. Any failure rolls everything back.
- **Product stock operations and predicates** (`app/Models/Product.php`).
- **Customer balance and statistics** (`app/Models/Customer.php`).
- **Transaction accessors** (`app/Models/Transaction.php`): the transaction number, item counts, labels and the "Rp " money text.
- **Manual receivables adjustment** (`CustomersController::updateReceivables`) with its audit-log record.

Modelling conventions:

- Money is integer cents, so the arithmetic is exact. The money columns are `decimal(10,2)` for product prices and `decimal(12,2)` for transaction and customer amounts.
- Database tables are classes holding rows:
  - `ProductTable` maps id to row.
  - `CustomerTable` is a sequence of rows in the order `first()` sees them.
  - `TransactionTable` holds its rows and the auto-increment counter.
- Eloquent models (`Product`, `Customer`) are classes. A static `Find` loads one fresh from its row, or returns null. Their mutating methods assign fields and `Save` the row back.
- The checkout is written twice:
  - `Checkout.Store` follows the controller step by step, with both loops.
  - `Checkout.CheckoutSpec` is the same checkout as one function of a `Db` value.

  `Store` is proved to compute exactly `CheckoutSpec`, and the properties are lemmas about `CheckoutSpec` in `CheckoutProperties`.
- The validator's `required` on a string means "not blank after PHP `trim`". An absent required string is the empty string, and nullable fields are `Option`s.
- The clock (today's date, the ISO time stamps) and the random digest behind the transaction number are parameters. `updateReceivables` reads the clock twice, once for the document's `updated_at` and once for the log record's `created_at`, so the adjustment takes two separate stamps, `updatedAt` and `loggedAt`.
- Whether the receivables-log write succeeds is a parameter.
- A missing Firestore client is a null `Firestore`.

Files:

| file | module |
|---|---|
| `wrappers.dfy` | `Option`, `Result` |
| `number_format.dfy` | decimal digits, `number_format($x, 0, ',', '.')` and the "Rp " text |
| `products.dfy` | `Product.php` |
| `transactions.dfy` | `Transaction.php` |
| `customers.dfy` | `Customer.php` |
| `checkout.dfy` | `TransactionsController::store` |
| `checkout_properties.dfy` | what the checkout guarantees |
| `receivables.dfy` | `CustomersController::updateReceivables` |

Behaviour of the code that the model keeps as written:

- The checkout never rejects a negative total.
- Products are looked up by id only, not within the store.
- A transaction-number collision is not retried; the insert fails and everything rolls back.
- The number's suffix is six upper-cased md5 hex characters.
- The checkout writes no receivables-ledger entry, because `addReceivables` ignores its notes.

## Model

| member | source | states |
|---|---|---|
| NumberFormat.Digits | app/Models/Transaction.php:82 | the decimal spelling of n: non-empty, all digits, no leading zero, and reads back to n |
| NumberFormat.Grouped | app/Models/Transaction.php:82 | the text starts with a digit; without its '.'s it is exactly the shortest decimal spelling of n; it has one '.' per complete group of three digits, and a character is '.' exactly when it stands a multiple of four places from the end |
| NumberFormat.GroupedDigitsUnique | app/Models/Transaction.php:82 | a string has that grouped layout for n exactly when it is `Grouped(n)`, so the layout fixes the text completely |
| NumberFormat.FormatUnits | app/Models/Transaction.php:82 | a non-negative rounded amount is its grouped magnitude; a negative one is '-' followed by the grouped magnitude |
| NumberFormat.Rupiah | app/Models/Transaction.php:80-83 | "Rp ", then '-' exactly when the rounded amount is negative, then the rounded magnitude in '.'-separated thousands groups |
| NumberFormat.UngroupedTextRejected | app/Models/Transaction.php:82 | "Rp 9500" and "Rp 09.5.00" are not the text of 9500 rupiah |
| NumberFormat.RoundedUnits | app/Models/Transaction.php:82 | number_format's rounding to whole units is within half a unit of the amount, half away from zero |
| NumberFormat.RupiahRoundTrip | app/Models/Transaction.php:80-83 | reading the "Rp " text back gives the amount rounded to whole units, sign included |
| NumberFormat.RupiahExample | app/Models/Transaction.php:80-83 | 9500 rupiah is shown as "Rp 9.500" |
| Products.DecreasedStock | app/Models/Product.php:83-88 | the result is never negative; it is stock − q when q ≤ stock, and 0 otherwise |
| Products.IncreasedStock | app/Models/Product.php:90-94 | the stock plus q; `IncreaseThenDecrease` shows that `decreaseStock` undoes it |
| Products.SetStock | app/Models/Product.php:97-102 | the result is never negative; it is q when q ≥ 0, and 0 otherwise |
| Products.IncreaseThenDecrease | app/Models/Product.php:83-95 | on non-negative stock, increasing by q ≥ 0 and then decreasing by q restores the stock |
| Products.SetStockIdempotent | app/Models/Product.php:97-102 | setting the stock again to the result changes nothing |
| Products.IsLowStock | app/Models/Product.php:72-75 | `is_low_stock` is stock ≤ 10; `ScopesMatchPredicates` shows `lowStock()` keeps exactly these rows, and `OutOfStockIsLowStock` that an out-of-stock product is one |
| Products.IsOutOfStock | app/Models/Product.php:77-80 | `is_out_of_stock` is stock ≤ 0; `ScopesMatchPredicates` shows `inStock` keeps exactly the other rows |
| Products.OutOfStockIsLowStock | app/Models/Product.php:72-80 | an out-of-stock product is low on stock |
| Products.ScopeLowStock | app/Models/Product.php:51-54 | keeps exactly the rows whose stock is at most the threshold (default 10) |
| Products.ScopeInStock | app/Models/Product.php:56-59 | keeps exactly the rows whose stock is positive |
| Products.ScopesMatchPredicates | app/Models/Product.php:51-59 | `inStock` keeps exactly the rows that are not out of stock; `lowStock()` keeps exactly the low-stock rows |
| Products.FormattedPrice | app/Models/Product.php:62-65 | the "Rp " text of the price: the prefix, the sign and the rounded magnitude in '.'-separated thousands groups, which reads back to the rounded price |
| Products.FormattedPriceSell | app/Models/Product.php:67-70 | the "Rp " text of the selling price: the prefix, the sign and the rounded magnitude in '.'-separated thousands groups, which reads back to the rounded selling price |
| Products.Product.Save | app/Models/Product.php:86 | the table's row under this instance's id becomes the instance's fields, and no other row changes |
| Products.Product.Find | app/Http/Controllers/API/TransactionsController.php:192 | null exactly when no row has the id; otherwise a fresh instance holding that row |
| Products.Product.DecreaseStock | app/Models/Product.php:83-88 | the stock becomes max(0, stock − q); no other field changes; the row is saved |
| Products.Product.IncreaseStock | app/Models/Product.php:90-95 | the stock becomes stock + q; no other field changes; the row is saved |
| Products.Product.UpdateStock | app/Models/Product.php:97-102 | the stock becomes max(0, q); no other field changes; the row is saved |
| Transactions.FillDefaults | app/Models/Transaction.php:38-44 | an unset customer name, payment status, subtotal, discount or tax takes its default ("Walk-in Customer", "paid", 0); everything else is kept |
| Transactions.ItemsCount | app/Models/Transaction.php:85-88 | the number of items, 0 when items is null |
| Transactions.TotalItemsQuantity | app/Models/Transaction.php:90-93 | the sum of the item quantities, 0 when items is null |
| Transactions.QuantitySumAtLeastCount | app/Models/Transaction.php:85-93 | with every quantity at least 1, the quantity sum is at least the item count |
| Transactions.PaymentMethodLabel | app/Models/Transaction.php:95-105 | the four methods map to their fixed labels; any other value is returned unchanged |
| Transactions.PaymentStatusLabel | app/Models/Transaction.php:107-116 | the three statuses map to their fixed labels; any other value is returned unchanged |
| Transactions.FormattedTotal | app/Models/Transaction.php:80-83 | the "Rp " text of the total: the prefix, the sign and the rounded magnitude in '.'-separated thousands groups, which reads back to the rounded total |
| Transactions.FormatYmd | app/Models/Transaction.php:122 | `date('Ymd')`: the zero-padded year, month and day; `YmdLength` and `YmdRoundTrip` state it |
| Transactions.YmdRoundTrip | app/Models/Transaction.php:122 | the `Ymd` of a valid date is eight digits that read back to year, month and day |
| Transactions.GenerateTransactionNumber | app/Models/Transaction.php:119-126 | for any digest: "TRX", then the date's `Ymd`, then as many characters as the digest has, up to six |
| Transactions.TransactionNumberFormat | app/Models/Transaction.php:119-126 | for an md5 digest the number is 17 characters: "TRX", the date's `Ymd` and six upper-case hex characters |
| Transactions.TransactionNumberRoundTrip | app/Models/Transaction.php:119-126 | the number parses back to the date and the upper-cased first six digest characters |
| Transactions.TransactionTable.Create | app/Http/Controllers/API/TransactionsController.php:236-251 | a taken number fails and changes nothing; otherwise the defaulted row is appended under the next id |
| Transactions.AppendKeepsNumbersUnique | database/migrations/2025_09_12_212518_create_transactions_table.php:17 | inserting a free number keeps the transaction numbers unique |
| Customers.AddedReceivables | app/Models/Customer.php:79-84 | the balance plus the amount; `AddThenSubtract` shows that `subtractReceivables` undoes it |
| Customers.SubtractedReceivables | app/Models/Customer.php:86-91 | the result is never negative; it is balance − a when a ≤ balance, and 0 otherwise |
| Customers.AddThenSubtract | app/Models/Customer.php:79-91 | on a non-negative balance, adding a ≥ 0 and then subtracting a restores the balance |
| Customers.IsPaidBy | app/Models/Customer.php:95-96 | a transaction of this customer (`transactions()`) whose status is `paid`; `PaidStatsAppend` states how it filters the aggregates |
| Customers.PaidCount | app/Models/Customer.php:95-100 | `COUNT(*)` of the customer's paid transactions, 0 when there are none; `PaidStatsAppend` and `PaidStatsEmpty` characterise it |
| Customers.PaidTotal | app/Models/Customer.php:95-101 | `SUM(total_amount)` of the customer's paid transactions, 0 when there are none (`?? 0`); `PaidStatsAppend`, `PaidStatsEmpty` and `PaidCountZero` characterise it |
| Customers.PaidStatsAppend | app/Models/Customer.php:93-105 | appending a transaction raises the paid count by 1 and the paid sum by its total exactly when it is a paid transaction of this customer |
| Customers.PaidStatsEmpty | app/Models/Customer.php:100-101 | with no paid transactions both statistics are 0 |
| Customers.RefreshedStats | app/Models/Customer.php:93-105 | only the paid count and the paid sum change, and a customer with no paid transaction counted has spent 0 |
| Customers.PaidCountZero | app/Models/Customer.php:100-101 | when no paid transaction is counted, the paid sum is 0 |
| Customers.RefreshIdempotent | app/Models/Customer.php:93-105 | recomputing the statistics again over the same transactions changes nothing |
| Customers.HasReceivables | app/Models/Customer.php:73-76 | `has_receivables` is a balance > 0; `ScopeWithReceivables` keeps exactly these rows |
| Customers.ScopeWithReceivables | app/Models/Customer.php:51-54 | keeps exactly the rows with `has_receivables` (balance > 0) |
| Customers.FormattedReceivables | app/Models/Customer.php:63-66 | the "Rp " text of the balance: the prefix, the sign and the rounded magnitude in '.'-separated thousands groups, which reads back to the rounded balance |
| Customers.FormattedTotalSpent | app/Models/Customer.php:68-71 | the "Rp " text of the total spent: the prefix, the sign and the rounded magnitude in '.'-separated thousands groups, which reads back to the rounded total spent |
| Customers.IndexOfId | app/Http/Controllers/API/TransactionsController.php:261 | the position of the first row with the key, or none when no row has it |
| Customers.ReplaceRow | app/Models/Customer.php:82 | every row with the saved row's key becomes that row; all others are kept |
| Customers.ReplaceRowKeepsIds | app/Models/Customer.php:82 | saving keeps every row's id, so the primary key stays unique |
| Customers.SaveRewritesOneRow | app/Models/Customer.php:82 | with unique ids, saving over row k's key rewrites row k and no other |
| Customers.Customer.Save | app/Models/Customer.php:82 | every row with this instance's id becomes the instance's fields (`ReplaceRow`); the others are kept |
| Customers.Customer.Find | app/Http/Controllers/API/TransactionsController.php:261 | null exactly when no row has the id; otherwise a fresh instance of the first such row |
| Customers.Customer.AddReceivables | app/Models/Customer.php:79-84 | the balance becomes balance + amount; the notes are dropped; no other field changes; the row is saved |
| Customers.Customer.SubtractReceivables | app/Models/Customer.php:86-91 | the balance becomes max(0, balance − amount); no other field changes; the row is saved |
| Customers.Customer.UpdateTransactionStats | app/Models/Customer.php:93-105 | the count and the sum become the paid count and the paid sum over the customer's transactions; the row is saved |
| Customers.UpdateCustomerStats | app/Models/Transaction.php:129-136 | recomputes the customer's statistics only when the transaction has a customer and is paid; otherwise nothing changes |
| Checkout.Filled | app/Http/Controllers/API/TransactionsController.php:155-166 | Laravel's `required` on a string: some character is left after PHP's `trim`; `InvalidCartRejected` and `CheckoutSucceedsExactlyWhen` use it through `ValidRequest` |
| Checkout.ValidRequest | app/Http/Controllers/API/TransactionsController.php:154-167 | the validator's rules: a filled store id, cashier id and cashier name, at least one line, every quantity ≥ 1 and price ≥ 0, one of the four payment methods, and no negative discount or tax; `InvalidCartRejected` and `CheckoutSucceedsExactlyWhen` state its role |
| Checkout.Subtotal | app/Http/Controllers/API/TransactionsController.php:184-189 | Σ quantity × price over the lines; `SnapshotTotal` and `CheckoutTotals` state it |
| Checkout.TotalAmount | app/Http/Controllers/API/TransactionsController.php:219-221 | subtotal − discount + tax, an absent discount or tax counting as 0; `CheckoutTotals` and `NegativeTotalAccepted` state it |
| Checkout.SnapshotLine | app/Http/Controllers/API/TransactionsController.php:209-216 | one stored line: the request's id, quantity and price, quantity × price as its total, and the product's name and unit; `SnapshotLines` and `CheckoutItems` state it |
| Checkout.Snapshot | app/Http/Controllers/API/TransactionsController.php:209-216 | one stored line per request line: its id, quantity, price and total, with the product's name and unit; `SnapshotLines` and `CheckoutItems` state it |
| Checkout.LineFailure | app/Http/Controllers/API/TransactionsController.php:193-206 | a missing product reports its id; a product short of stock reports its name and the stock it has; `FirstUnavailableLineReported` states which line's error is returned |
| Checkout.FirstFailure | app/Http/Controllers/API/TransactionsController.php:187-207 | no error exactly when every line's product exists and has at least the requested stock |
| Checkout.FirstFailureAt | app/Http/Controllers/API/TransactionsController.php:192-207 | when line i is the first unavailable line, its error is the one reported |
| Checkout.DecrementLine | app/Http/Controllers/API/TransactionsController.php:255-256 | one pass of the stock loop: the line's product gets `decreaseStock(quantity)`; `ApplyDecrementsAt` states the effect of the whole loop |
| Checkout.ApplyDecrements | app/Http/Controllers/API/TransactionsController.php:254-257 | the line-by-line decrements keep the set of products |
| Checkout.IsTruthy | app/Http/Controllers/API/TransactionsController.php:224 | PHP truthiness of the name: every string except "" and "0"; `CheckoutCustomerLink` states its role in linking a customer |
| Checkout.CheckoutDraft | app/Http/Controllers/API/TransactionsController.php:236-251 | the attributes passed to `Transaction::create`; `CheckoutTotals`, `CheckoutItems`, `CheckoutStatusAndName` and `CheckoutCustomerLink` state each field of the stored row |
| Checkout.PaymentStatusFor | app/Http/Controllers/API/TransactionsController.php:247 | `pending` for `receivables`, `paid` otherwise; `CheckoutStatusAndName` states it for the stored row |
| Checkout.CustomerEffect | app/Http/Controllers/API/TransactionsController.php:260-272 | the linked customer's row after the checkout: the total added to its balance on credit, its statistics recomputed when paid; `UpdatedCustomersEffect` states it |
| Checkout.UpdatedCustomers | app/Http/Controllers/API/TransactionsController.php:260-272 | the customer table after the checkout's customer step; `UpdatedCustomersEffect`, `CheckoutCustomerEffect` and `UpdatedCustomersKeepIds` state it |
| Checkout.ResolveCustomer | app/Http/Controllers/API/TransactionsController.php:224-233 | a customer is linked exactly when the name is truthy, is not the walk-in name, and some customer of the store has it; the linked id is that of the first such customer |
| Checkout.FirstNamed | app/Http/Controllers/API/TransactionsController.php:226-228 | the first customer of the store with exactly that name, or none when there is none |
| Checkout.CheckLines | app/Http/Controllers/API/TransactionsController.php:184-217 | the first loop: reports the first unavailable line; otherwise the subtotal is Σ quantity × price and the lines are the snapshot |
| Checkout.DecrementStock | app/Http/Controllers/API/TransactionsController.php:254-257 | the second loop: the products become the line-by-line decrements of the stock before |
| Checkout.SettleCustomer | app/Http/Controllers/API/TransactionsController.php:260-272 | the customer step produces the customer table `UpdatedCustomers` describes |
| Checkout.Store | app/Http/Controllers/API/TransactionsController.php:152-298 | the result and all three tables after the call are exactly those of `CheckoutSpec` on the tables before |
| CheckoutProperties.CheckoutSucceedsExactlyWhen | app/Http/Controllers/API/TransactionsController.php:154-251 | success exactly when the request is valid, every line is available and the number is free |
| Checkout.CheckoutSpec | app/Http/Controllers/API/TransactionsController.php:177-298 | the checkout as one step: every failure leaves the products, customers and transactions as they were (the rollback) |
| CheckoutProperties.InvalidCartRejected | app/Http/Controllers/API/TransactionsController.php:154-175 | an empty cart, a quantity below 1, a negative price or an unknown payment method is refused with nothing changed |
| CheckoutProperties.FirstUnavailableLineReported | app/Http/Controllers/API/TransactionsController.php:192-207 | a missing product or short stock on line i fails the checkout with line i's error, nothing changed |
| CheckoutProperties.SnapshotLines | app/Http/Controllers/API/TransactionsController.php:209-216 | the snapshot has one line per request line, in order |
| CheckoutProperties.SnapshotTotal | app/Http/Controllers/API/TransactionsController.php:187-216 | the snapshot's line totals add up to the subtotal |
| CheckoutProperties.CheckoutTotals | app/Http/Controllers/API/TransactionsController.php:184-221 | subtotal = Σ quantity × price, total = subtotal − discount + tax with absent ones 0, and the stored line totals add up to the subtotal |
| CheckoutProperties.CheckoutItems | app/Http/Controllers/API/TransactionsController.php:209-216 | the stored lines match the request in length and order, keep its product id, quantity and price, take the product's name and unit, and have total = quantity × price |
| CheckoutProperties.CheckoutStatusAndName | app/Http/Controllers/API/TransactionsController.php:236-251 | `pending` exactly on receivables and `paid` otherwise; the name defaults to "Walk-in Customer"; the other fields come from the request |
| CheckoutProperties.CheckoutCustomerLink | app/Http/Controllers/API/TransactionsController.php:224-233 | a customer is linked exactly when a truthy name other than "Walk-in Customer" matches a customer of the store; the first match is linked |
| CheckoutProperties.NegativeTotalAccepted | app/Http/Controllers/API/TransactionsController.php:219-221 | a discount above subtotal plus tax still succeeds, with a negative total |
| CheckoutProperties.CheckoutStock | app/Http/Controllers/API/TransactionsController.php:254-257 | on success the products are the line-by-line decrements of the products before |
| CheckoutProperties.ApplyDecrementsAt | app/Models/Product.php:83-88 | only the stock changes; unnamed products are unchanged; a product with enough stock for all its lines loses exactly their total quantity; any product whose stock starts non-negative ends at max(0, stock − total quantity of its lines) |
| CheckoutProperties.ApplyDecrementsKeepsStockNonNegative | app/Models/Product.php:85 | no decrement makes a stock negative |
| CheckoutProperties.DuplicateLinesCanExceedStock | app/Http/Controllers/API/TransactionsController.php:187-257 | two lines of 3 against a stock of 5 both pass the check, and the stock ends at 0 |
| CheckoutProperties.UpdatedCustomersEffect | app/Http/Controllers/API/TransactionsController.php:260-272 | on credit the total is added to the balance; otherwise the statistics become the paid count and sum before plus this transaction |
| CheckoutProperties.ResolvedCustomerExists | app/Http/Controllers/API/TransactionsController.php:230-261 | the linked customer id is always found again by `Customer::find` |
| CheckoutProperties.CheckoutCustomerEffect | app/Http/Controllers/API/TransactionsController.php:260-272 | no linked customer leaves customers unchanged; otherwise the customer is found, and either its balance grows by the total (receivables) or its statistics grow by this paid transaction, never both |
| CheckoutProperties.UpdatedCustomersKeepIds | app/Http/Controllers/API/TransactionsController.php:260-272 | the customer step adds and removes no row and keeps every id |
| CheckoutProperties.CheckoutKeepsKeys | app/Http/Controllers/API/TransactionsController.php:152-298 | a checkout adds or removes no product and no customer, and changes no customer's id |
| CheckoutProperties.CheckoutSuccessShape | app/Http/Controllers/API/TransactionsController.php:224-272 | on success the row carries the resolved customer and the method's payment status, and the customers are the customer step's result |
| CheckoutProperties.CheckoutAppendsTransaction | app/Http/Controllers/API/TransactionsController.php:236-251 | exactly one row is appended, under the next id, and transaction numbers stay unique |
| CheckoutProperties.CheckoutPreservesInvariant | app/Http/Controllers/API/TransactionsController.php:152-298 | non-negative stock, unique transaction numbers, transaction ids below the counter and unique customer ids survive every checkout |
| Receivables.Balance | app/Http/Controllers/API/CustomersController.php:293 | `total_receivables ?? 0`: a document without a balance counts as 0; `AdjustBalance` and `AdjustLogRecord` state it as the previous balance |
| Receivables.ValidAdjust | app/Http/Controllers/API/CustomersController.php:257-262 | an amount is present and the type is `add` or `subtract`; `InvalidAdjustRejected` and `AdjustFailureChangesNothing` state its role |
| Receivables.NewBalance | app/Http/Controllers/API/CustomersController.php:293-298 | `add` gives previous + amount; otherwise max(0, previous − amount), as the Customer model's operations |
| Receivables.Firestore.LogReceivablesTransaction | app/Http/Controllers/API/CustomersController.php:337-346 | the record is appended when the write goes through; otherwise nothing changes |
| Receivables.AdjustSpec | app/Http/Controllers/API/CustomersController.php:255-333 | the adjustment as one step: no customer document is added or removed, and the log only grows, by at most one record, keeping every earlier record |
| Receivables.UpdateReceivables | app/Http/Controllers/API/CustomersController.php:255-333 | the result and the store after the call are exactly those of `AdjustSpec` on the store before |
| Receivables.InvalidAdjustRejected | app/Http/Controllers/API/CustomersController.php:257-270 | a missing amount or a type other than add/subtract is refused with nothing changed |
| Receivables.AdjustFailureChangesNothing | app/Http/Controllers/API/CustomersController.php:272-290 | every failure changes nothing; an unknown customer is reported as not found; success exactly when valid, the client exists and the customer exists |
| Receivables.AdjustBalance | app/Http/Controllers/API/CustomersController.php:292-324 | the balance becomes previous + amount for add and max(0, previous − amount) for subtract; no other document changes; the response reports old balance, new balance and amount |
| Receivables.AdjustLogRecord | app/Http/Controllers/API/CustomersController.php:305-342 | the log gains one record exactly when the write goes through; it carries the customer, type, amount, transaction id, notes, and the balances before and after |
| Receivables.NewBalanceMatchesCustomerModel | app/Http/Controllers/API/CustomersController.php:293-298 | the adjustment's add and subtract agree with `addReceivables` and `subtractReceivables` |
| Receivables.AdjustKeepsReconciled | app/Http/Controllers/API/CustomersController.php:292-314 | when the log write succeeds, each record starts where the customer's previous record ended, and the last record matches the stored balance |
| Receivables.LostLogWriteBreaksReconciliation | app/Http/Controllers/API/CustomersController.php:339-346 | a swallowed log failure on a balance change leaves the log behind the stored balance |

## Left out

- Replication to Firebase (`syncTransactionToFirebase`, `syncToFirebaseAsync`, `sendRealTimeUpdate`) is not modelled. It is remote I/O whose failures are swallowed. On success `syncTransactionToFirebase` also writes the document id back to the transaction row (`firebase_id`); neither that column nor that write is modelled.
- Remote failures of the Firestore calls in `updateReceivables` (`FirebaseException` from the snapshot or the update) are not modelled. Only the swallowed failure of the log write is a parameter.
- Concurrency is not modelled: the read-then-write race between checkouts, and database isolation. One checkout runs at a time, and its rollback is "on error, the state before".
- The `(float)` casts and the rounding to two decimal places are not modelled. Amounts are exact integer cents.
- Strings are unbounded and compared exactly. The database's `string(255)` and `uuid` column limits are not modelled, and the validator sets no `max`. So a 300-character cashier name or a `store_id` that is not a UUID can make the insert fail on a strict database, while `Checkout.CheckoutSpec` reports success. The collation under which `where('name', …)` compares is not modelled either: under a case-insensitive collation such as MySQL's `utf8mb4_unicode_ci`, "budi santoso" matches "Budi Santoso" in the source but not in `Checkout.NamedIn`.
- A failed insert is modelled as not consuming an auto-increment id. `Err(StorageFailed)` leaves `nextTransactionId` unchanged, whereas InnoDB and PostgreSQL sequences consume the id even when the insert fails or is rolled back.
- Column ranges are not modelled. `decimal(10,2)`, `decimal(12,2)` and `integer` columns hold bounded values, and the validator puts no upper bound on a price or a quantity. A cart whose subtotal or total does not fit `decimal(12,2)` makes the insert fail on a strict database, and the controller then rolls back and answers 500. The model has unbounded integers, so `Checkout.CheckoutSpec` and `Transactions.TransactionTable.Create` report success there. Stock and statistics are likewise never out of range in the model.
- The clock and the random source are inputs: `now()`, the ISO time stamps and `md5(uniqid(rand()))`. `Checkout.Store` takes the transaction number as a parameter, and `Transactions.GenerateTransactionNumber` takes the date and the digest.
- The request's `product_id` is a string matched against the integer key. The model uses the integer key directly.
- An id of 0, which PHP would treat as false in `if ($customerId)`, cannot occur: auto-increment keys start at 1. The model therefore treats the test as "a customer id is set".
- The HTTP layer is not modelled: JSON responses, status codes, message texts and timestamps in responses. The error datatypes distinguish only the outcomes.
- Laravel's request middleware (`TrimStrings`, `ConvertEmptyStringsToNull`) is not modelled. The request is taken as the controller receives it, so a blank optional string arrives as `None`.
- The validator's messages are not modelled, and neither is its handling of non-string or non-array inputs. A request the model receives is already typed.
- The other controllers (products, dashboard, auth, setup) and the CRUD endpoints of `CustomersController` are not part of this model. Neither are the demo-data seeders and the duplicated private helpers in `TransactionsController` (`generateTransactionNumber`, `updateProductStock`).
- Products.IncreasedStock and Customers.AddedReceivables state their results by their one-line bodies. IncreaseThenDecrease and AddThenSubtract are the properties proved about them.
