/**
  The manual receivables adjustment (`CustomersController::updateReceivables`): read the
  customer document's balance, add to it or subtract from it (clamped at zero), write the
  new balance back and append a record to the receivables log.

  The document store is a `Firestore` object (null when the client is not configured). The
  two readings of the clock are parameters: `updatedAt` for the document and `loggedAt` for
  the log record, which may differ. Whether the log write goes through is a parameter too,
  since the controller swallows a failed log write.
*/
module Receivables {
  import opened Wrappers
  import opened Customers

  const Add: string := "add"
  const Subtract: string := "subtract"

  /** A `customers` document; `total_receivables` may be missing. */
  datatype CustomerDoc = CustomerDoc(name: string, totalReceivables: Option<int>, updatedAt: string)

  /** `total_receivables ?? 0`. */
  function Balance(doc: CustomerDoc): int {
    doc.totalReceivables.GetOr(0)
  }

  /** A `receivables_logs` record. */
  datatype LogEntry = LogEntry(
    customerId: string,
    kind: string,
    amount: int,
    previousBalance: int,
    newBalance: int,
    transactionId: string,
    notes: string,
    createdAt: string)

  /** The request body; `amount` is None when it is missing or not numeric. */
  datatype AdjustRequest = AdjustRequest(
    amount: Option<int>,
    kind: Option<string>,
    transactionId: Option<string>,
    notes: Option<string>)

  datatype AdjustResponse = AdjustResponse(previousReceivables: int, newReceivables: int, amountChanged: int)

  datatype AdjustError = InvalidRequest | StoreUnavailable | CustomerNotFound

  /** The validator: an amount, and a type that is `add` or `subtract`. */
  predicate ValidAdjust(req: AdjustRequest) {
    req.amount.Some? && req.kind.Some? && req.kind.value in {Add, Subtract}
  }

  /** The new balance: added for `add`, otherwise subtracted and clamped at zero. */
  function NewBalance(kind: string, previous: int, amount: int): (r: int)
    ensures kind == Add ==> r == AddedReceivables(previous, amount)
    ensures kind != Add ==> r == SubtractedReceivables(previous, amount)
  {
    if kind == Add then previous + amount
    else if previous - amount > 0 then previous - amount else 0
  }

  /** The document store's two collections. */
  datatype Ledger = Ledger(customers: map<string, CustomerDoc>, logs: seq<LogEntry>)

  datatype AdjustOutcome = AdjustOutcome(ledger: Ledger, result: Result<AdjustResponse, AdjustError>)

  /** The adjustment as one step; `available` is false when there is no store client. */
  function AdjustSpec(s: Ledger, available: bool, id: string, req: AdjustRequest, updatedAt: string, loggedAt: string, logWritten: bool): (r: AdjustOutcome)
    ensures r.ledger.customers.Keys == s.customers.Keys
    ensures |s.logs| <= |r.ledger.logs| <= |s.logs| + 1 && r.ledger.logs[..|s.logs|] == s.logs
  {
    if !ValidAdjust(req) then AdjustOutcome(s, Err(InvalidRequest))
    else if !available then AdjustOutcome(s, Err(StoreUnavailable))
    else if id !in s.customers then AdjustOutcome(s, Err(CustomerNotFound))
    else
      var previous, amount := Balance(s.customers[id]), req.amount.value;
      var next := NewBalance(req.kind.value, previous, amount);
      var entry := LogEntry(id, req.kind.value, amount, previous, next, req.transactionId.GetOr(""), req.notes.GetOr(""), loggedAt);
      var customers := s.customers[id := s.customers[id].(totalReceivables := Some(next), updatedAt := updatedAt)];
      AdjustOutcome(
        Ledger(customers, if logWritten then s.logs + [entry] else s.logs),
        Ok(AdjustResponse(previous, next, amount)))
  }

  /** The store client's view of the two collections. */
  class Firestore {
    var customers: map<string, CustomerDoc>
    var receivablesLogs: seq<LogEntry>

    constructor (customers: map<string, CustomerDoc>, receivablesLogs: seq<LogEntry>)
      ensures this.customers == customers && this.receivablesLogs == receivablesLogs
    {
      this.customers, this.receivablesLogs := customers, receivablesLogs;
    }

    /** `logReceivablesTransaction`: the append, which may fail without telling the caller. */
    method LogReceivablesTransaction(entry: LogEntry, succeeds: bool)
      modifies this
      ensures customers == old(customers)
      ensures receivablesLogs == if succeeds then old(receivablesLogs) + [entry] else old(receivablesLogs)
    {
      if succeeds {
        receivablesLogs := receivablesLogs + [entry];
      }
    }
  }

  /** `updateReceivables($request, $id)`. */
  method UpdateReceivables(store: Firestore?, id: string, req: AdjustRequest, updatedAt: string, loggedAt: string, logWritten: bool)
    returns (r: Result<AdjustResponse, AdjustError>)
    modifies store
    ensures store == null ==>
      r == AdjustSpec(Ledger(map[], []), false, id, req, updatedAt, loggedAt, logWritten).result
    ensures store != null ==>
      var out := AdjustSpec(Ledger(old(store.customers), old(store.receivablesLogs)), true, id, req, updatedAt, loggedAt, logWritten);
      && r == out.result
      && store.customers == out.ledger.customers
      && store.receivablesLogs == out.ledger.logs
  {
    if !ValidAdjust(req) {
      return Err(InvalidRequest);
    }
    if store == null {
      return Err(StoreUnavailable);
    }
    if id !in store.customers {
      return Err(CustomerNotFound);
    }
    var customer := store.customers[id];
    var currentReceivables := Balance(customer);
    var amount := req.amount.value;
    var newReceivables := NewBalance(req.kind.value, currentReceivables, amount);
    store.customers := store.customers[id := customer.(totalReceivables := Some(newReceivables), updatedAt := updatedAt)];
    store.LogReceivablesTransaction(
      LogEntry(id, req.kind.value, amount, currentReceivables, newReceivables,
        req.transactionId.GetOr(""), req.notes.GetOr(""), loggedAt),
      logWritten);
    return Ok(AdjustResponse(currentReceivables, newReceivables, amount));
  }

  // ---------------------------------------------------------------- properties

  /** A missing amount or a type other than `add`/`subtract` is refused and changes nothing. */
  lemma InvalidAdjustRejected(s: Ledger, available: bool, id: string, req: AdjustRequest, updatedAt: string, loggedAt: string, logWritten: bool)
    requires req.amount.None? || req.kind.None? || (req.kind.value != Add && req.kind.value != Subtract)
    ensures AdjustSpec(s, available, id, req, updatedAt, loggedAt, logWritten) == AdjustOutcome(s, Err(InvalidRequest))
  {
  }

  /** Every failure changes nothing; an unknown customer is reported as not found. */
  lemma AdjustFailureChangesNothing(s: Ledger, available: bool, id: string, req: AdjustRequest, updatedAt: string, loggedAt: string, logWritten: bool)
    ensures AdjustSpec(s, available, id, req, updatedAt, loggedAt, logWritten).result.Err? ==>
      AdjustSpec(s, available, id, req, updatedAt, loggedAt, logWritten).ledger == s
    ensures ValidAdjust(req) && available && id !in s.customers ==>
      AdjustSpec(s, available, id, req, updatedAt, loggedAt, logWritten).result == Err(CustomerNotFound)
    ensures AdjustSpec(s, available, id, req, updatedAt, loggedAt, logWritten).result.Ok? <==>
      ValidAdjust(req) && available && id in s.customers
  {
  }

  /**
    On success the customer's balance becomes previous + amount for `add` and
    max(0, previous − amount) for `subtract`, its other fields and all other documents
    are kept, and the response reports the old balance, the new one and the amount.
  */
  lemma AdjustBalance(s: Ledger, available: bool, id: string, req: AdjustRequest, updatedAt: string, loggedAt: string, logWritten: bool)
    requires AdjustSpec(s, available, id, req, updatedAt, loggedAt, logWritten).result.Ok?
    ensures var out := AdjustSpec(s, available, id, req, updatedAt, loggedAt, logWritten);
      var previous, amount, resp := Balance(s.customers[id]), req.amount.value, out.result.value;
      && id in out.ledger.customers && out.ledger.customers.Keys == s.customers.Keys
      && (req.kind.value == Add ==> Balance(out.ledger.customers[id]) == previous + amount)
      && (req.kind.value == Subtract ==>
        Balance(out.ledger.customers[id]) == (if previous - amount > 0 then previous - amount else 0)
        && Balance(out.ledger.customers[id]) >= 0)
      && out.ledger.customers[id].name == s.customers[id].name
      && out.ledger.customers[id].updatedAt == updatedAt
      && (forall other :: other in s.customers && other != id ==> out.ledger.customers[other] == s.customers[other])
      && resp == AdjustResponse(previous, Balance(out.ledger.customers[id]), amount)
  {
  }

  /**
    On success the log gains at most one record, exactly when the write goes through, and
    that record carries the customer, the type, the amount and the balance before and after,
    as the response does.
  */
  lemma AdjustLogRecord(s: Ledger, available: bool, id: string, req: AdjustRequest, updatedAt: string, loggedAt: string, logWritten: bool)
    requires AdjustSpec(s, available, id, req, updatedAt, loggedAt, logWritten).result.Ok?
    ensures var out := AdjustSpec(s, available, id, req, updatedAt, loggedAt, logWritten); var resp := out.result.value;
      && (!logWritten ==> out.ledger.logs == s.logs)
      && (logWritten ==>
        && |out.ledger.logs| == |s.logs| + 1 && out.ledger.logs[..|s.logs|] == s.logs
        && var e := out.ledger.logs[|s.logs|];
          && e.customerId == id && e.kind == req.kind.value && e.amount == resp.amountChanged
          && e.previousBalance == resp.previousReceivables == Balance(s.customers[id])
          && e.newBalance == resp.newReceivables == Balance(out.ledger.customers[id])
          && e.transactionId == req.transactionId.GetOr("") && e.notes == req.notes.GetOr("")
          && e.createdAt == loggedAt)
  {
  }

  /** The new balance agrees with the Customer model's add and subtract. */
  lemma NewBalanceMatchesCustomerModel(previous: int, amount: int)
    ensures NewBalance(Add, previous, amount) == AddedReceivables(previous, amount)
    ensures NewBalance(Subtract, previous, amount) == SubtractedReceivables(previous, amount)
    ensures NewBalance(Subtract, previous, amount) >= 0
  {
  }

  // ---------------------------------------------------------------- reconciliation

  /** The balance the last log record of customer `id` left, if there is one. */
  function LastLogged(logs: seq<LogEntry>, id: string): (b: Option<int>)
    ensures b.Some? <==> exists i :: 0 <= i < |logs| && logs[i].customerId == id
  {
    if logs == [] then None
    else if logs[|logs| - 1].customerId == id then Some(logs[|logs| - 1].newBalance)
    else
      var b := LastLogged(logs[..|logs| - 1], id);
      assert forall i :: 0 <= i < |logs| - 1 ==> logs[..|logs| - 1][i] == logs[i];
      b
  }

  /** Each record starts from the balance the customer's previous record ended at. */
  predicate Chained(logs: seq<LogEntry>) {
    forall j :: 0 <= j < |logs| && LastLogged(logs[..j], logs[j].customerId).Some? ==>
      logs[j].previousBalance == LastLogged(logs[..j], logs[j].customerId).value
  }

  /** The log replays to the stored balances: chained, and ending at each logged customer's balance. */
  predicate Reconciled(s: Ledger) {
    && Chained(s.logs)
    && forall id :: id in s.customers && LastLogged(s.logs, id).Some? ==>
      LastLogged(s.logs, id).value == Balance(s.customers[id])
  }

  /** An adjustment whose log write goes through keeps the log reconciled with the balances. */
  lemma AdjustKeepsReconciled(s: Ledger, available: bool, id: string, req: AdjustRequest, updatedAt: string, loggedAt: string)
    requires Reconciled(s)
    ensures Reconciled(AdjustSpec(s, available, id, req, updatedAt, loggedAt, true).ledger)
  {
    var out := AdjustSpec(s, available, id, req, updatedAt, loggedAt, true);
    if out.result.Ok? {
      var logs := out.ledger.logs;
      var e := logs[|s.logs|];
      assert logs == s.logs + [e];
      assert logs[..|s.logs|] == s.logs;
      forall j | 0 <= j < |logs| && LastLogged(logs[..j], logs[j].customerId).Some?
        ensures logs[j].previousBalance == LastLogged(logs[..j], logs[j].customerId).value
      {
        if j < |s.logs| {
          assert logs[..j] == s.logs[..j];
        }
      }
      forall other | other in out.ledger.customers && LastLogged(logs, other).Some?
        ensures LastLogged(logs, other).value == Balance(out.ledger.customers[other])
      {
        if other != id {
          assert LastLogged(logs, other) == LastLogged(s.logs, other);
        }
      }
    }
  }

  /**
    When the log write is lost, an adjustment that changes an already logged balance leaves
    the log behind the balance.
  */
  lemma LostLogWriteBreaksReconciliation(s: Ledger, available: bool, id: string, req: AdjustRequest, updatedAt: string, loggedAt: string)
    requires Reconciled(s)
    requires AdjustSpec(s, available, id, req, updatedAt, loggedAt, false).result.Ok?
    requires exists i :: 0 <= i < |s.logs| && s.logs[i].customerId == id
    requires NewBalance(req.kind.value, Balance(s.customers[id]), req.amount.value) != Balance(s.customers[id])
    ensures !Reconciled(AdjustSpec(s, available, id, req, updatedAt, loggedAt, false).ledger)
  {
    var out := AdjustSpec(s, available, id, req, updatedAt, loggedAt, false);
    assert id in out.ledger.customers && LastLogged(out.ledger.logs, id).Some?;
  }
}
