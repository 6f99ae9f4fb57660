/**
  The Customer model: the receivables balance operations, the recomputation of the paid
  statistics from the customer's transactions, the `has_receivables` predicate and its
  scope, and the "Rp " accessors. Rows live in a `CustomerTable` in row order, which is
  the order `first()` sees them in.
*/
module Customers {
  import opened Wrappers
  import opened NumberFormat
  import opened Transactions

  /** A `customers` row. Money fields are in cents. */
  datatype CustomerRow = CustomerRow(
    id: nat,
    storeId: string,
    name: string,
    phone: Option<string>,
    email: Option<string>,
    totalReceivables: int,
    totalSpent: int,
    totalTransactions: int,
    notes: Option<string>,
    isActive: bool)

  /** The balance after `addReceivables($amount)`. */
  function AddedReceivables(balance: int, amount: int): int {
    balance + amount
  }

  /** The balance after `subtractReceivables($amount)`: the difference, clamped at zero. */
  function SubtractedReceivables(balance: int, amount: int): (r: int)
    ensures r >= 0
    ensures amount <= balance ==> r == balance - amount
    ensures balance < amount ==> r == 0
  {
    if balance - amount > 0 then balance - amount else 0
  }

  /** On a non-negative balance, adding `a >= 0` and then subtracting it restores the balance. */
  lemma AddThenSubtract(balance: int, a: int)
    requires balance >= 0 && a >= 0
    ensures SubtractedReceivables(AddedReceivables(balance, a), a) == balance
  {
  }

  /** A transaction that counts towards the customer's statistics. */
  predicate IsPaidBy(t: TransactionRow, customerId: nat) {
    t.customerId == Some(customerId) && t.paymentStatus == Paid
  }

  /** `COUNT(*)` of the customer's paid transactions. */
  function PaidCount(txs: seq<TransactionRow>, customerId: nat): nat {
    if txs == [] then 0
    else (if IsPaidBy(txs[0], customerId) then 1 else 0) + PaidCount(txs[1..], customerId)
  }

  /** `SUM(total_amount)` of the customer's paid transactions, 0 when there are none. */
  function PaidTotal(txs: seq<TransactionRow>, customerId: nat): int {
    if txs == [] then 0
    else (if IsPaidBy(txs[0], customerId) then txs[0].totalAmount else 0) + PaidTotal(txs[1..], customerId)
  }

  /** Appending one transaction adds it to the statistics exactly when it is a paid one of this customer. */
  lemma {:induction false} PaidStatsAppend(txs: seq<TransactionRow>, t: TransactionRow, customerId: nat)
    ensures PaidCount(txs + [t], customerId) == PaidCount(txs, customerId) + (if IsPaidBy(t, customerId) then 1 else 0)
    ensures PaidTotal(txs + [t], customerId) == PaidTotal(txs, customerId) + (if IsPaidBy(t, customerId) then t.totalAmount else 0)
  {
    if txs == [] {
      assert [t][1..] == [];
    } else {
      assert (txs + [t])[1..] == txs[1..] + [t];
      PaidStatsAppend(txs[1..], t, customerId);
    }
  }

  /** With no paid transaction of the customer, both statistics are 0. */
  lemma {:induction false} PaidStatsEmpty(txs: seq<TransactionRow>, customerId: nat)
    requires forall i :: 0 <= i < |txs| ==> !IsPaidBy(txs[i], customerId)
    ensures PaidCount(txs, customerId) == 0 && PaidTotal(txs, customerId) == 0
  {
    if txs != [] {
      PaidStatsEmpty(txs[1..], customerId);
    }
  }

  /** The row after `updateTransactionStats()` over the transactions table `txs`. */
  function RefreshedStats(c: CustomerRow, txs: seq<TransactionRow>): (r: CustomerRow)
    ensures r.(totalTransactions := c.totalTransactions, totalSpent := c.totalSpent) == c
    ensures r.totalTransactions == 0 ==> r.totalSpent == 0
  {
    PaidCountZero(txs, c.id);
    c.(totalTransactions := PaidCount(txs, c.id), totalSpent := PaidTotal(txs, c.id))
  }

  /** With no paid transaction counted, the paid sum is 0 too. */
  lemma {:induction false} PaidCountZero(txs: seq<TransactionRow>, customerId: nat)
    ensures PaidCount(txs, customerId) == 0 ==> PaidTotal(txs, customerId) == 0
  {
    if txs != [] {
      PaidCountZero(txs[1..], customerId);
    }
  }

  /** Recomputing the statistics again, with no new transactions, changes nothing. */
  lemma RefreshIdempotent(c: CustomerRow, txs: seq<TransactionRow>)
    ensures RefreshedStats(RefreshedStats(c, txs), txs) == RefreshedStats(c, txs)
  {
  }

  /** `has_receivables`. */
  predicate HasReceivables(c: CustomerRow) {
    c.totalReceivables > 0
  }

  /** The `withReceivables` scope: the rows, in order, that have receivables. */
  function ScopeWithReceivables(rows: seq<CustomerRow>): (r: seq<CustomerRow>)
    ensures |r| <= |rows|
    ensures forall c :: c in r <==> c in rows && HasReceivables(c)
  {
    if rows == [] then []
    else (if rows[0].totalReceivables > 0 then [rows[0]] else []) + ScopeWithReceivables(rows[1..])
  }

  /** `formatted_receivables`. */
  function FormattedReceivables(c: CustomerRow): (r: string)
    ensures RupiahText(r, c.totalReceivables)
    ensures ParseRupiah(r) == Some(RoundedUnits(c.totalReceivables))
  {
    RupiahRoundTrip(c.totalReceivables);
    Rupiah(c.totalReceivables)
  }

  /** `formatted_total_spent`. */
  function FormattedTotalSpent(c: CustomerRow): (r: string)
    ensures RupiahText(r, c.totalSpent)
    ensures ParseRupiah(r) == Some(RoundedUnits(c.totalSpent))
  {
    RupiahRoundTrip(c.totalSpent);
    Rupiah(c.totalSpent)
  }

  /** The position of the first row with primary key `id`. */
  function IndexOfId(rows: seq<CustomerRow>, id: nat): (k: Option<nat>)
    ensures k.Some? ==> k.value < |rows| && rows[k.value].id == id
    ensures k.Some? ==> forall j :: 0 <= j < k.value ==> rows[j].id != id
    ensures k.None? ==> forall j :: 0 <= j < |rows| ==> rows[j].id != id
  {
    if rows == [] then None
    else if rows[0].id == id then Some(0)
    else match IndexOfId(rows[1..], id)
      case Some(k) => Some(k + 1)
      case None => None
  }

  /** `UPDATE customers ... WHERE id = row.id`: every row with that key becomes `row`. */
  function ReplaceRow(rows: seq<CustomerRow>, row: CustomerRow): (r: seq<CustomerRow>)
    ensures |r| == |rows|
    ensures forall i :: 0 <= i < |rows| ==> r[i] == if rows[i].id == row.id then row else rows[i]
  {
    seq(|rows|, i requires 0 <= i < |rows| => if rows[i].id == row.id then row else rows[i])
  }

  /** The auto-increment primary key: no two rows share an id. */
  predicate UniqueIds(rows: seq<CustomerRow>) {
    forall i, j :: 0 <= i < j < |rows| ==> rows[i].id != rows[j].id
  }

  /** Saving a row over its own key keeps every id, so it keeps the key unique. */
  lemma ReplaceRowKeepsIds(rows: seq<CustomerRow>, row: CustomerRow)
    ensures forall i :: 0 <= i < |rows| ==> ReplaceRow(rows, row)[i].id == rows[i].id
    ensures UniqueIds(rows) ==> UniqueIds(ReplaceRow(rows, row))
  {
  }

  /** With unique ids, saving a row over the key of row `k` rewrites row `k` and no other. */
  lemma SaveRewritesOneRow(rows: seq<CustomerRow>, k: nat, row: CustomerRow)
    requires UniqueIds(rows) && k < |rows| && rows[k].id == row.id
    ensures ReplaceRow(rows, row) == rows[k := row]
  {
  }

  /** The `customers` table. */
  class CustomerTable {
    var rows: seq<CustomerRow>

    constructor (rows: seq<CustomerRow>)
      ensures this.rows == rows
    {
      this.rows := rows;
    }
  }

  /** A Customer model instance, loaded from one row of `table`. */
  class Customer {
    const table: CustomerTable
    const id: nat
    var storeId: string
    var name: string
    var phone: Option<string>
    var email: Option<string>
    var totalReceivables: int
    var totalSpent: int
    var totalTransactions: int
    var notes: Option<string>
    var isActive: bool

    /** The row this instance would save. */
    function Row(): CustomerRow
      reads this
    {
      CustomerRow(id, storeId, name, phone, email, totalReceivables, totalSpent, totalTransactions, notes, isActive)
    }

    constructor Load(table: CustomerTable, row: CustomerRow)
      ensures this.table == table && Row() == row
    {
      this.table, id := table, row.id;
      storeId, name, phone, email := row.storeId, row.name, row.phone, row.email;
      totalReceivables, totalSpent, totalTransactions := row.totalReceivables, row.totalSpent, row.totalTransactions;
      notes, isActive := row.notes, row.isActive;
    }

    /** `Customer::find($id)`: a fresh instance of the first row with that key, or null. */
    static method Find(table: CustomerTable, id: nat) returns (c: Customer?)
      ensures IndexOfId(table.rows, id).None? <==> c == null
      ensures c != null ==> fresh(c) && c.table == table && c.Row() == table.rows[IndexOfId(table.rows, id).value]
    {
      var k := IndexOfId(table.rows, id);
      if k.Some? {
        c := new Customer.Load(table, table.rows[k.value]);
      } else {
        c := null;
      }
    }

    /** `save()`. */
    method Save()
      modifies table
      ensures table.rows == ReplaceRow(old(table.rows), Row())
    {
      table.rows := ReplaceRow(table.rows, Row());
    }

    /** `addReceivables($amount, $notes)`; the notes are not stored anywhere. */
    method AddReceivables(amount: int, notes: string)
      modifies this, table
      ensures totalReceivables == AddedReceivables(old(totalReceivables), amount)
      ensures Row() == old(Row()).(totalReceivables := totalReceivables)
      ensures table.rows == ReplaceRow(old(table.rows), Row())
    {
      totalReceivables := totalReceivables + amount;
      Save();
    }

    /** `subtractReceivables($amount)`. */
    method SubtractReceivables(amount: int)
      modifies this, table
      ensures totalReceivables == SubtractedReceivables(old(totalReceivables), amount)
      ensures Row() == old(Row()).(totalReceivables := totalReceivables)
      ensures table.rows == ReplaceRow(old(table.rows), Row())
    {
      totalReceivables := if totalReceivables - amount > 0 then totalReceivables - amount else 0;
      Save();
    }

    /** `updateTransactionStats()`: the paid count and paid sum over the customer's rows of `txs`. */
    method UpdateTransactionStats(txs: TransactionTable)
      modifies this, table
      ensures Row() == RefreshedStats(old(Row()), txs.rows)
      ensures table.rows == ReplaceRow(old(table.rows), Row())
    {
      totalTransactions := PaidCount(txs.rows, id);
      totalSpent := PaidTotal(txs.rows, id);
      Save();
    }
  }

  /**
    `Transaction::updateCustomerStats()`: recomputes the statistics of the transaction's
    customer when it has one and the transaction is paid; otherwise nothing happens.
    `ok` is false when the customer row is missing, where the source would fail.
  */
  method UpdateCustomerStats(t: TransactionRow, customers: CustomerTable, txs: TransactionTable) returns (ok: bool)
    modifies customers
    ensures !(t.customerId.Some? && t.paymentStatus == Paid) ==> ok && customers.rows == old(customers.rows)
    ensures t.customerId.Some? && t.paymentStatus == Paid ==>
      match IndexOfId(old(customers.rows), t.customerId.value)
      case None => !ok && customers.rows == old(customers.rows)
      case Some(k) =>
        ok && customers.rows == ReplaceRow(old(customers.rows), RefreshedStats(old(customers.rows)[k], txs.rows))
  {
    ok := true;
    if t.customerId.Some? && t.paymentStatus == Paid {
      var c := Customer.Find(customers, t.customerId.value);
      if c == null {
        ok := false;
      } else {
        c.UpdateTransactionStats(txs);
      }
    }
  }
}
