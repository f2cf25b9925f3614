/**
 Transactions and payments (domain/transaction_service.py). Money is integer cents, a date is a day number.
 A transaction's or payment's id is its position in its table.
 */
module Ledger {
  import opened Prelude

  datatype TxnStatus = Pending | Partial | Paid | Overdue | Cancelled

  datatype TxnType = Sale | Credit | Layaway | Service

  datatype Txn = Txn(number: string, contact: nat, kind: TxnType, amountDue: int, amountPaid: int,
                     dueDate: Option<int>, status: TxnStatus)

  /** `reference` is the external reference: a receipt code for M-Pesa payments. */
  datatype Payment = Payment(txn: nat, amount: int, reference: Option<string>)

  /** VALID_TRANSITIONS. */
  function Allowed(from: TxnStatus): set<TxnStatus> {
    match from
    case Pending => {Partial, Paid, Overdue, Cancelled}
    case Partial => {Paid, Overdue, Cancelled}
    case Overdue => {Partial, Paid, Cancelled}
    case Paid | Cancelled => {}
  }

  function Balance(t: Txn): int {
    t.amountDue - t.amountPaid
  }

  predicate FullyPaid(t: Txn) {
    Balance(t) <= 0
  }

  /** Transactions the reminder scheduler loads. */
  predicate Schedulable(t: Txn) {
    (t.status.Pending? || t.status.Partial? || t.status.Overdue?) && !t.kind.Sale?
  }

  /** `create_transaction`. */
  function Created(number: string, contact: nat, kind: TxnType, amountDue: int, dueDate: Option<int>,
                   today: int): Result<Txn> {
    if amountDue <= 0 then Err("amount_due must be positive")
    else if !kind.Sale? && dueDate.None? then Err("due_date is required")
    else if kind.Sale? && dueDate.Some? && dueDate.value < today then Err("due_date cannot be in the past")
    else Ok(Txn(number, contact, kind, amountDue, 0, dueDate, Pending))
  }

  /** `update_status`. */
  function Moved(t: Txn, to: TxnStatus): Result<Txn> {
    if to !in Allowed(t.status) then Err("Cannot transition")
    else Ok(t.(status := to, amountPaid := if to.Paid? then t.amountDue else t.amountPaid))
  }

  /** What `record_payment` makes of the transaction. */
  function Credited(t: Txn, amount: int): Txn {
    var paid := t.amountPaid + amount;
    if paid >= t.amountDue then t.(status := Paid, amountPaid := t.amountDue)
    else if paid > 0 then t.(status := Partial, amountPaid := paid)
    else t.(amountPaid := paid)
  }

  // ---------------------------------------------------------------- what each operation writes

  /** What may be created, and that it starts PENDING with nothing paid. */
  lemma CreationWrites(number: string, contact: nat, kind: TxnType, amountDue: int, dueDate: Option<int>, today: int)
    ensures var r := Created(number, contact, kind, amountDue, dueDate, today);
      && (r.Ok? <==> amountDue > 0
                     && if kind == Sale then dueDate == None || dueDate.value >= today else dueDate != None)
      && (r.Ok? ==> r.value == Txn(number, contact, kind, amountDue, 0, dueDate, Pending))
  {
  }

  /** Which status changes are allowed, and that only PAID touches the amount. */
  lemma MoveWrites(t: Txn, to: TxnStatus)
    ensures Moved(t, to).Ok?
            <==> (t.status, to) in {(Pending, Partial), (Pending, Paid), (Pending, Overdue), (Pending, Cancelled),
                                    (Partial, Paid), (Partial, Overdue), (Partial, Cancelled), (Overdue, Partial),
                                    (Overdue, Paid), (Overdue, Cancelled)}
    ensures Moved(t, to).Ok? ==>
              Moved(t, to).value == t.(status := to, amountPaid := if to == Paid then t.amountDue else t.amountPaid)
  {
  }

  /** A payment adds up to what is due and no further; the status says whether all, some or nothing is paid. */
  lemma CreditWrites(t: Txn, amount: int)
    ensures var t', sum := Credited(t, amount), t.amountPaid + amount;
      && t' == t.(status := t'.status, amountPaid := t'.amountPaid)
      && t'.amountPaid == Min(t.amountDue, sum)
      && (t'.status == if sum >= t.amountDue then Paid else if sum > 0 then Partial else t.status)
  {
  }

  // ---------------------------------------------------------------- the tables, updated in place

  class TransactionTable {
    var txns: seq<Txn>
    var payments: seq<Payment>

    constructor (txns: seq<Txn>, payments: seq<Payment>)
      ensures this.txns == txns && this.payments == payments
    {
      this.txns, this.payments := txns, payments;
    }

    method CreateTransaction(number: string, contact: nat, kind: TxnType, amountDue: int, dueDate: Option<int>,
                             today: int)
      returns (r: Result<nat>)
      modifies this`txns
      ensures var made := Created(number, contact, kind, amountDue, dueDate, today);
        match made
        case Err(e) => r == Err(e) && txns == old(txns)
        case Ok(t) => r == Ok(|old(txns)|) && txns == old(txns) + [t]
    {
      if amountDue <= 0 {
        return Err("amount_due must be positive");
      }
      if kind in {Credit, Layaway, Service} {
        if dueDate.None? {
          return Err("due_date is required");
        }
      } else if dueDate.Some? {
        if dueDate.value < today {
          return Err("due_date cannot be in the past");
        }
      }
      var id := |txns|;
      txns := txns + [Txn(number, contact, kind, amountDue, 0, dueDate, Pending)];
      return Ok(id);
    }

    method UpdateStatus(id: nat, to: TxnStatus) returns (r: Result<Txn>)
      requires id < |txns|
      modifies this`txns
      ensures r == Moved(old(txns)[id], to)
      ensures txns == if r.Ok? then old(txns)[id := r.value] else old(txns)
    {
      var current := txns[id].status;
      if to !in Allowed(current) {
        return Err("Cannot transition");
      }
      var t := txns[id].(status := to);
      if to == Paid {
        t := t.(amountPaid := t.amountDue);
      }
      txns := txns[id := t];
      return Ok(t);
    }

    /** Raises on a non-positive amount; otherwise adds one payment row and credits the transaction. */
    method RecordPayment(id: nat, amount: int, reference: Option<string>) returns (r: Result<nat>)
      requires id < |txns|
      modifies this
      ensures amount <= 0 ==> r.Err? && txns == old(txns) && payments == old(payments)
      ensures amount > 0 ==>
                && r == Ok(|old(payments)|)
                && payments == old(payments) + [Payment(id, amount, reference)]
                && txns == old(txns)[id := Credited(old(txns)[id], amount)]
    {
      if amount <= 0 {
        return Err("Payment amount must be positive");
      }
      var pid := |payments|;
      payments := payments + [Payment(id, amount, reference)];
      var t := txns[id].(amountPaid := txns[id].amountPaid + amount);
      if t.amountPaid >= t.amountDue {
        t := t.(status := Paid);
        t := t.(amountPaid := t.amountDue);
      } else if t.amountPaid > 0 {
        t := t.(status := Partial);
      }
      txns := txns[id := t];
      return Ok(pid);
    }
  }

  // ---------------------------------------------------------------- payments only

  /** Payments arriving one after the other; a non-positive one raises and changes nothing. */
  function PayAll(t: Txn, amounts: seq<int>): Txn {
    if amounts == [] then t
    else
      var before := PayAll(t, amounts[..|amounts| - 1]);
      var amount := amounts[|amounts| - 1];
      if amount <= 0 then before else Credited(before, amount)
  }

  /** The sum of the payments that do not raise. */
  function Total(amounts: seq<int>): nat {
    if amounts == [] then 0
    else Total(amounts[..|amounts| - 1]) + if amounts[|amounts| - 1] > 0 then amounts[|amounts| - 1] else 0
  }

  /** The status a transaction must have when `sum` has been paid towards `due`. */
  function StatusFor(sum: int, due: int): TxnStatus {
    if sum >= due then Paid else if sum > 0 then Partial else Pending
  }

  lemma {:induction false} PaymentsAddUp(number: string, contact: nat, kind: TxnType, amountDue: int,
                                         dueDate: Option<int>, today: int, amounts: seq<int>)
    requires Created(number, contact, kind, amountDue, dueDate, today).Ok?
    ensures var t := PayAll(Created(number, contact, kind, amountDue, dueDate, today).value, amounts);
      && t.amountPaid == Min(amountDue, Total(amounts))
      && t.status == StatusFor(Total(amounts), amountDue)
      && t.amountDue == amountDue
  {
    if amounts != [] {
      PaymentsAddUp(number, contact, kind, amountDue, dueDate, today, amounts[..|amounts| - 1]);
    }
  }

  lemma {:induction false} TotalWithout(ys: seq<int>, i: nat)
    requires i < |ys|
    ensures Total(ys) == Total(Without(ys, i)) + Max(ys[i], 0)
  {
    var n := |ys| - 1;
    if i < n {
      TotalWithout(ys[..n], i);
      assert Without(ys, i)[..n - 1] == Without(ys[..n], i);
    } else {
      assert Without(ys, i) == ys[..n];
    }
  }

  lemma MultisetWithout(ys: seq<int>, i: nat)
    requires i < |ys|
    ensures multiset(Without(ys, i)) == multiset(ys) - multiset{ys[i]}
  {
    assert ys == ys[..i] + [ys[i]] + ys[i + 1..];
  }

  lemma {:induction false} TotalIgnoresOrder(xs: seq<int>, ys: seq<int>)
    requires multiset(xs) == multiset(ys)
    ensures Total(xs) == Total(ys)
  {
    if xs != [] {
      assert xs[0] in multiset(ys);
      var i :| 0 <= i < |ys| && ys[i] == xs[0];
      TotalWithout(xs, 0);
      TotalWithout(ys, i);
      MultisetWithout(xs, 0);
      MultisetWithout(ys, i);
      TotalIgnoresOrder(Without(xs, 0), Without(ys, i));
    } else {
      assert |ys| == |multiset(ys)| == |multiset(xs)| == 0;
    }
  }

  /** The order in which payments arrive does not matter. */
  lemma PaymentOrderIsIrrelevant(number: string, contact: nat, kind: TxnType, amountDue: int, dueDate: Option<int>,
                                 today: int, xs: seq<int>, ys: seq<int>)
    requires Created(number, contact, kind, amountDue, dueDate, today).Ok? && multiset(xs) == multiset(ys)
    ensures var t := Created(number, contact, kind, amountDue, dueDate, today).value;
      PayAll(t, xs).amountPaid == PayAll(t, ys).amountPaid && PayAll(t, xs).status == PayAll(t, ys).status
  {
    TotalIgnoresOrder(xs, ys);
    PaymentsAddUp(number, contact, kind, amountDue, dueDate, today, xs);
    PaymentsAddUp(number, contact, kind, amountDue, dueDate, today, ys);
  }

  // ---------------------------------------------------------------- payments and status changes

  datatype LedgerOp = Pay(amount: int) | Move(to: TxnStatus)

  function ApplyOp(t: Txn, op: LedgerOp): Txn {
    match op
    case Pay(amount) => if amount <= 0 then t else Credited(t, amount)
    case Move(to) => if Moved(t, to).Ok? then Moved(t, to).value else t
  }

  function ApplyOps(t: Txn, ops: seq<LedgerOp>): Txn {
    if ops == [] then t else ApplyOp(ApplyOps(t, ops[..|ops| - 1]), ops[|ops| - 1])
  }

  /** Every operation of a mix takes place: a positive payment credits, an allowed status change moves. */
  lemma OpsTakePlace(t: Txn, ops: seq<LedgerOp>, op: LedgerOp)
    ensures ApplyOps(t, []) == t
    ensures var before, after := ApplyOps(t, ops), ApplyOps(t, ops + [op]);
      && (op.Pay? ==> after == if op.amount > 0 then Credited(before, op.amount) else before)
      && (op.Move? ==> after == if Moved(before, op.to).Ok? then Moved(before, op.to).value else before)
  {
    assert (ops + [op])[..|ops|] == ops;
  }

  /** What every transaction in the system satisfies. */
  predicate Sound(t: Txn) {
    t.amountDue > 0 && 0 <= t.amountPaid <= t.amountDue && (t.status.Paid? <==> t.amountPaid == t.amountDue)
  }

  lemma OpKeepsSound(t: Txn, op: LedgerOp)
    requires Sound(t)
    ensures Sound(ApplyOp(t, op))
    ensures ApplyOp(t, op).amountPaid >= t.amountPaid && (t.status.Paid? ==> ApplyOp(t, op).status.Paid?)
  {
  }

  /** Any mix of payments and status changes: bounded, PAID exactly when settled, and PAID for good. */
  lemma {:induction false} LedgerStaysSound(number: string, contact: nat, kind: TxnType, amountDue: int,
                                            dueDate: Option<int>, today: int, ops: seq<LedgerOp>)
    requires Created(number, contact, kind, amountDue, dueDate, today).Ok?
    ensures var t0 := Created(number, contact, kind, amountDue, dueDate, today).value;
      var t := ApplyOps(t0, ops);
      && Sound(t)
      && (FullyPaid(t) <==> t.status.Paid?)
      && (forall k | 0 <= k <= |ops| && ApplyOps(t0, ops[..k]).status.Paid? :: t.status.Paid?)
  {
    var t0 := Created(number, contact, kind, amountDue, dueDate, today).value;
    if ops != [] {
      var n := |ops| - 1;
      LedgerStaysSound(number, contact, kind, amountDue, dueDate, today, ops[..n]);
      OpKeepsSound(ApplyOps(t0, ops[..n]), ops[n]);
      forall k | 0 <= k <= |ops| && ApplyOps(t0, ops[..k]).status.Paid?
        ensures ApplyOps(t0, ops).status.Paid?
      {
        if k <= n {
          assert ops[..n][..k] == ops[..k];
        } else {
          assert ops[..k] == ops;
        }
      }
    } else {
      assert forall k :: 0 <= k <= |ops| ==> ops[..k] == ops;
    }
  }
}
