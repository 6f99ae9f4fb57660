/**
  The Transaction model: the transaction number, the item accessors, the label tables,
  the formatted total and the attribute defaults applied on creation. Rows live in a
  `TransactionTable` whose `transaction_number` column is unique.
*/
module Transactions {
  import opened Wrappers
  import opened NumberFormat

  const WalkInCustomer: string := "Walk-in Customer"

  const Cash: string := "cash"
  const Transfer: string := "transfer"
  const Qris: string := "qris"
  const Receivables: string := "receivables"

  const Paid: string := "paid"
  const Pending: string := "pending"
  const Cancelled: string := "cancelled"

  /** A snapshot of one cart line as stored in the `items` JSON column (money in cents). */
  datatype LineItem = LineItem(
    productId: nat,
    productName: string,
    quantity: int,
    price: int,
    total: int,
    unit: string)

  /** A `transactions` row; `items` is null when the JSON column holds null. */
  datatype TransactionRow = TransactionRow(
    id: nat,
    storeId: string,
    transactionNumber: string,
    customerName: string,
    customerId: Option<nat>,
    items: Option<seq<LineItem>>,
    subtotal: int,
    discount: int,
    tax: int,
    totalAmount: int,
    paymentMethod: string,
    paymentStatus: string,
    notes: string,
    cashierId: string,
    cashierName: string)

  /** The attributes handed to `Transaction::create`; an absent one takes the model's default. */
  datatype Draft = Draft(
    storeId: string,
    transactionNumber: string,
    customerName: Option<string>,
    customerId: Option<nat>,
    items: seq<LineItem>,
    subtotal: Option<int>,
    discount: Option<int>,
    tax: Option<int>,
    totalAmount: int,
    paymentMethod: string,
    paymentStatus: Option<string>,
    notes: string,
    cashierId: string,
    cashierName: string)

  /** The row a draft becomes under the id the table assigns. */
  function FillDefaults(d: Draft, id: nat): (t: TransactionRow)
    ensures t.id == id && t.transactionNumber == d.transactionNumber && t.items == Some(d.items)
    ensures t.customerName == (if d.customerName.Some? then d.customerName.value else WalkInCustomer)
    ensures t.paymentStatus == (if d.paymentStatus.Some? then d.paymentStatus.value else Paid)
    ensures t.subtotal == (if d.subtotal.Some? then d.subtotal.value else 0)
    ensures t.discount == (if d.discount.Some? then d.discount.value else 0)
    ensures t.tax == (if d.tax.Some? then d.tax.value else 0)
    ensures t.storeId == d.storeId && t.customerId == d.customerId && t.totalAmount == d.totalAmount
    ensures t.paymentMethod == d.paymentMethod && t.notes == d.notes
    ensures t.cashierId == d.cashierId && t.cashierName == d.cashierName
  {
    TransactionRow(
      id, d.storeId, d.transactionNumber, d.customerName.GetOr(WalkInCustomer), d.customerId,
      Some(d.items), d.subtotal.GetOr(0), d.discount.GetOr(0), d.tax.GetOr(0), d.totalAmount,
      d.paymentMethod, d.paymentStatus.GetOr(Paid), d.notes, d.cashierId, d.cashierName)
  }

  /** `items_count`. */
  function ItemsCount(items: Option<seq<LineItem>>): (n: nat)
    ensures items.None? ==> n == 0
    ensures items.Some? ==> n == |items.value|
  {
    |items.GetOr([])|
  }

  /** The sum of the quantities of `items`. */
  function QuantitySum(items: seq<LineItem>): int {
    if items == [] then 0 else QuantitySum(items[..|items| - 1]) + items[|items| - 1].quantity
  }

  /** `total_items_quantity`: the quantity sum, 0 when there are no items. */
  function TotalItemsQuantity(items: Option<seq<LineItem>>): (q: int)
    ensures items.None? ==> q == 0
    ensures items.Some? ==> q == QuantitySum(items.value)
  {
    QuantitySum(items.GetOr([]))
  }

  /** Items of positive quantity have a quantity sum at least their count. */
  lemma {:induction false} QuantitySumAtLeastCount(items: seq<LineItem>)
    requires forall i :: 0 <= i < |items| ==> items[i].quantity >= 1
    ensures QuantitySum(items) >= |items|
  {
    if items != [] {
      QuantitySumAtLeastCount(items[..|items| - 1]);
    }
  }

  /** `payment_method_label`: the four methods have fixed labels, anything else is shown as it is. */
  function PaymentMethodLabel(paymentMethod: string): (shown: string)
    ensures paymentMethod == Cash ==> shown == "Tunai"
    ensures paymentMethod == Transfer ==> shown == "Transfer Bank"
    ensures paymentMethod == Qris ==> shown == "QRIS"
    ensures paymentMethod == Receivables ==> shown == "Piutang"
    ensures paymentMethod !in {Cash, Transfer, Qris, Receivables} ==> shown == paymentMethod
  {
    if paymentMethod == Cash then "Tunai"
    else if paymentMethod == Transfer then "Transfer Bank"
    else if paymentMethod == Qris then "QRIS"
    else if paymentMethod == Receivables then "Piutang"
    else paymentMethod
  }

  /** `payment_status_label`: the three statuses have fixed labels, anything else is shown as it is. */
  function PaymentStatusLabel(status: string): (shown: string)
    ensures status == Paid ==> shown == "Lunas"
    ensures status == Pending ==> shown == "Pending"
    ensures status == Cancelled ==> shown == "Dibatalkan"
    ensures status !in {Paid, Pending, Cancelled} ==> shown == status
  {
    if status == Paid then "Lunas"
    else if status == Pending then "Pending"
    else if status == Cancelled then "Dibatalkan"
    else status
  }

  /** `formatted_total`. */
  function FormattedTotal(t: TransactionRow): (r: string)
    ensures RupiahText(r, t.totalAmount)
    ensures ParseRupiah(r) == Some(RoundedUnits(t.totalAmount))
  {
    RupiahRoundTrip(t.totalAmount);
    Rupiah(t.totalAmount)
  }

  // ---------------------------------------------------------------- transaction numbers

  /** A calendar date, as the clock supplies it. */
  datatype Date = Date(year: nat, month: nat, day: nat)

  predicate ValidDate(d: Date) {
    1 <= d.month <= 12 && 1 <= d.day <= 31
  }

  /** `format('Ymd')`: the year padded to at least four digits, month and day to two. */
  function FormatYmd(d: Date): string {
    PadLeft(Digits(d.year), 4) + PadLeft(Digits(d.month), 2) + PadLeft(Digits(d.day), 2)
  }

  predicate IsLowerHex(c: char) {
    '0' <= c <= '9' || 'a' <= c <= 'f'
  }

  predicate IsUpperHex(c: char) {
    '0' <= c <= '9' || 'A' <= c <= 'F'
  }

  /** What `md5()` returns: 32 lower-case hexadecimal characters. */
  predicate IsMd5Digest(s: string) {
    |s| == 32 && forall i :: 0 <= i < |s| ==> IsLowerHex(s[i])
  }

  function UpperChar(c: char): char {
    if 'a' <= c <= 'z' then (c as int - 32) as char else c
  }

  /** `strtoupper` on ASCII text. */
  function UpperAscii(s: string): (r: string)
    ensures |r| == |s|
    ensures forall i :: 0 <= i < |s| ==> r[i] == UpperChar(s[i])
  {
    seq(|s|, i requires 0 <= i < |s| => UpperChar(s[i]))
  }

  /**
    `generateTransactionNumber()`: "TRX", today's `Ymd`, and the first six characters of a
    digest in upper case. The date and the digest are inputs here.
  */
  function GenerateTransactionNumber(today: Date, digest: string): (r: string)
    ensures |r| == 3 + |FormatYmd(today)| + (if |digest| < 6 then |digest| else 6)
    ensures r[..3] == "TRX" && r[3..3 + |FormatYmd(today)|] == FormatYmd(today)
  {
    var ymd := FormatYmd(today);
    var width := if |digest| < 6 then |digest| else 6;
    var suffix := UpperAscii(digest[..width]);
    assert |suffix| == width;
    ConcatParts("TRX", ymd, suffix);
    "TRX" + ymd + suffix
  }

  datatype NumberParts = NumberParts(date: Date, suffix: string)

  /** Splits a 17-character transaction number into its date and its suffix. */
  function ParseTransactionNumber(s: string): Option<NumberParts> {
    if |s| == 17 && s[..3] == "TRX" && AllDigits(s[3..11]) then
      var ymd := s[3..11];
      AllDigitsSlice(ymd, 0, 4);
      AllDigitsSlice(ymd, 4, 6);
      AllDigitsSlice(ymd, 6, 8);
      Some(NumberParts(Date(Value(ymd[..4]), Value(ymd[4..6]), Value(ymd[6..])), s[11..]))
    else None
  }

  lemma PaddedDigits(n: nat, w: nat)
    requires w >= 1 && n < Pow10(w)
    ensures |PadLeft(Digits(n), w)| == w
    ensures AllDigits(PadLeft(Digits(n), w)) && Value(PadLeft(Digits(n), w)) == n
  {
    DigitsLength(n, w);
    PadLeftValue(Digits(n), w);
  }

  /** On a valid date with a four-digit year, `Ymd` is eight characters. */
  lemma YmdLength(d: Date)
    requires ValidDate(d) && d.year <= 9999
    ensures |FormatYmd(d)| == 8
  {
    assert Pow10(2) == 100;
    assert Pow10(4) == 10000;
    PaddedDigits(d.year, 4);
    PaddedDigits(d.month, 2);
    PaddedDigits(d.day, 2);
  }

  /** On a valid date with a four-digit year, `Ymd` is eight digits that read back to the date. */
  lemma YmdRoundTrip(d: Date)
    requires ValidDate(d) && d.year <= 9999
    ensures var ymd := FormatYmd(d);
      && |ymd| == 8 && AllDigits(ymd)
      && AllDigits(ymd[..4]) && AllDigits(ymd[4..6]) && AllDigits(ymd[6..])
      && Value(ymd[..4]) == d.year && Value(ymd[4..6]) == d.month && Value(ymd[6..]) == d.day
  {
    assert Pow10(2) == 100;
    assert Pow10(4) == 10000;
    var y, m, dd := PadLeft(Digits(d.year), 4), PadLeft(Digits(d.month), 2), PadLeft(Digits(d.day), 2);
    PaddedDigits(d.year, 4);
    PaddedDigits(d.month, 2);
    PaddedDigits(d.day, 2);
    ConcatParts(y, m, dd);
    AllDigitsConcat(y, m);
    AllDigitsConcat(y + m, dd);
  }

  /** The first six digest characters in upper case are upper-case hexadecimal. */
  lemma UpperDigestPrefix(digest: string)
    requires IsMd5Digest(digest)
    ensures forall k :: 0 <= k < 6 ==> IsUpperHex(UpperAscii(digest[..6])[k])
  {
    forall k | 0 <= k < 6
      ensures IsUpperHex(UpperAscii(digest[..6])[k])
    {
      assert digest[..6][k] == digest[k];
    }
  }

  /** "TRX", eight digits and a six-character suffix parse back to the date the digits spell and the suffix. */
  lemma ParseComposedNumber(ymd: string, suffix: string)
    requires |ymd| == 8 && AllDigits(ymd) && |suffix| == 6
    ensures AllDigits(ymd[..4]) && AllDigits(ymd[4..6]) && AllDigits(ymd[6..])
    ensures ParseTransactionNumber("TRX" + ymd + suffix) ==
      Some(NumberParts(Date(Value(ymd[..4]), Value(ymd[4..6]), Value(ymd[6..])), suffix))
  {
    var r := "TRX" + ymd + suffix;
    ConcatParts("TRX", ymd, suffix);
    assert r[3..11] == ymd;
    AllDigitsSlice(ymd, 0, 4);
    AllDigitsSlice(ymd, 4, 6);
    AllDigitsSlice(ymd, 6, 8);
    assert ymd[0..4] == ymd[..4] && ymd[6..8] == ymd[6..];
  }

  /** The layout of "TRX", eight characters and an upper-cased md5 prefix. */
  lemma NumberLayout(ymd: string, digest: string)
    requires |ymd| == 8 && IsMd5Digest(digest)
    ensures var r := "TRX" + ymd + UpperAscii(digest[..6]);
      && |r| == 17 && r[..3] == "TRX" && r[3..11] == ymd
      && forall i :: 11 <= i < 17 ==> IsUpperHex(r[i])
  {
    var suffix := UpperAscii(digest[..6]);
    var r := "TRX" + ymd + suffix;
    ConcatParts("TRX", ymd, suffix);
    UpperDigestPrefix(digest);
    forall i | 11 <= i < 17
      ensures IsUpperHex(r[i])
    {
      assert r[i] == suffix[i - 11];
    }
  }

  /** The number is "TRX", the date's `Ymd` and the upper-cased first six digest characters. */
  lemma GeneratedNumberParts(today: Date, digest: string)
    requires |digest| >= 6
    ensures GenerateTransactionNumber(today, digest) == "TRX" + FormatYmd(today) + UpperAscii(digest[..6])
  {
  }

  /**
    For an md5 digest the number is 17 characters: "TRX", the `Ymd` of the date, and six
    upper-case hexadecimal characters.
  */
  lemma TransactionNumberFormat(today: Date, digest: string)
    requires ValidDate(today) && today.year <= 9999 && IsMd5Digest(digest)
    ensures var r := GenerateTransactionNumber(today, digest);
      && |r| == 17
      && r[..3] == "TRX"
      && r[3..11] == FormatYmd(today)
      && (forall i :: 11 <= i < 17 ==> IsUpperHex(r[i]))
  {
    YmdLength(today);
    GeneratedNumberParts(today, digest);
    NumberLayout(FormatYmd(today), digest);
  }

  /** On a valid date with a four-digit year, the number reads back to that date and the digest's upper-cased prefix. */
  lemma TransactionNumberRoundTrip(today: Date, digest: string)
    requires ValidDate(today) && today.year <= 9999 && IsMd5Digest(digest)
    ensures ParseTransactionNumber(GenerateTransactionNumber(today, digest)) ==
      Some(NumberParts(today, UpperAscii(digest[..6])))
  {
    YmdRoundTrip(today);
    GeneratedNumberParts(today, digest);
    ParseComposedNumber(FormatYmd(today), UpperAscii(digest[..6]));
  }

  // ---------------------------------------------------------------- the table

  predicate NumberTaken(rows: seq<TransactionRow>, number: string) {
    exists i :: 0 <= i < |rows| && rows[i].transactionNumber == number
  }

  /** The unique index on `transaction_number`. */
  predicate UniqueNumbers(rows: seq<TransactionRow>) {
    forall i, j :: 0 <= i < j < |rows| ==> rows[i].transactionNumber != rows[j].transactionNumber
  }

  /** The `transactions` table with its auto-increment counter. */
  class TransactionTable {
    var rows: seq<TransactionRow>
    var nextId: nat

    constructor (rows: seq<TransactionRow>, nextId: nat)
      ensures this.rows == rows && this.nextId == nextId
    {
      this.rows, this.nextId := rows, nextId;
    }

    /**
      `Transaction::create($attributes)`: inserts the filled-in row under the next id, or
      fails (the unique-index violation) when the number is already taken.
    */
    method Create(d: Draft) returns (t: Option<TransactionRow>)
      modifies this
      ensures NumberTaken(old(rows), d.transactionNumber) ==>
        t == None && rows == old(rows) && nextId == old(nextId)
      ensures !NumberTaken(old(rows), d.transactionNumber) ==>
        t == Some(FillDefaults(d, old(nextId))) && rows == old(rows) + [t.value] && nextId == old(nextId) + 1
    {
      if exists i :: 0 <= i < |rows| && rows[i].transactionNumber == d.transactionNumber {
        t := None;
      } else {
        var row := FillDefaults(d, nextId);
        rows := rows + [row];
        nextId := nextId + 1;
        t := Some(row);
      }
    }
  }

  /** Inserting a number that is not taken keeps the numbers unique. */
  lemma AppendKeepsNumbersUnique(rows: seq<TransactionRow>, t: TransactionRow)
    requires UniqueNumbers(rows) && !NumberTaken(rows, t.transactionNumber)
    ensures UniqueNumbers(rows + [t])
  {
  }
}
