/**
 M-Pesa receipts of one business: matching, crediting, confirming (domain/mpesa_service.py, reconcile_payment in
 domain/reconciliation_service.py, workers/mpesa_reconciliation.py, workers/reconciliation.py part B).
 */
module Mpesa {
  import opened Prelude
  import opened Ledger

  datatype Source = C2b | Stk

  /** A row of mpesa_payments; an empty account reference is the source's None. */
  datatype Receipt = Receipt(ref: string, phone: string, amount: int, accountRef: string, source: Source,
                             payment: Option<nat>, matched: Option<nat>)

  /** The outbox row whose key is `{business}:mpesa_confirm:{ref}`. */
  datatype Confirmation = Confirmation(ref: string, contact: nat, amount: int, balance: int)

  datatype Db = Db(txns: seq<Txn>, payments: seq<Payment>, receipts: seq<Receipt>,
                   confirmations: seq<Confirmation>, contacts: map<string, nat>)

  // ---------------------------------------------------------------- finding the transaction

  predicate IsOpen(t: Txn) {
    t.status.Pending? || t.status.Partial?
  }

  /** ORDER BY due_date ASC puts a NULL due date last. */
  predicate DueNoLater(a: Txn, b: Txn) {
    b.dueDate.None? || (a.dueDate.Some? && a.dueDate.value <= b.dueDate.value)
  }

  predicate InTable(ids: seq<nat>, txns: seq<Txn>) {
    forall i :: 0 <= i < |ids| ==> ids[i] < |txns|
  }

  function InsertByDue(txns: seq<Txn>, id: nat, ids: seq<nat>): (r: seq<nat>)
    requires InTable(ids, txns) && id < |txns|
    ensures InTable(r, txns) && |r| == |ids| + 1
    ensures forall x: nat :: x in r <==> x == id || x in ids
  {
    if ids == [] then [id]
    else if !DueNoLater(txns[ids[|ids| - 1]], txns[id]) then
      assert ids == ids[..|ids| - 1] + [ids[|ids| - 1]];
      InsertByDue(txns, id, ids[..|ids| - 1]) + [ids[|ids| - 1]]
    else ids + [id]
  }

  /** The open transactions of a contact, oldest due date first. */
  function OpenOf(txns: seq<Txn>, contact: nat, upTo: nat): (r: seq<nat>)
    requires upTo <= |txns|
    ensures InTable(r, txns)
  {
    if upTo == 0 then []
    else
      var before := OpenOf(txns, contact, upTo - 1);
      if IsOpen(txns[upTo - 1]) && txns[upTo - 1].contact == contact then InsertByDue(txns, upTo - 1, before)
      else before
  }

  /** First id in `ids` whose balance is exactly `amount`. */
  function FirstExact(txns: seq<Txn>, ids: seq<nat>, amount: int): (r: Option<nat>)
    requires InTable(ids, txns)
    ensures r.Some? ==> r.value in ids
    ensures r.Some? ==> r.value < |txns| && Balance(txns[r.value]) == amount
  {
    if ids == [] then None
    else if Balance(txns[ids[0]]) == amount then Some(ids[0])
    else FirstExact(txns, ids[1..], amount)
  }

  /** The open transaction with this number; numbers are unique in a business. */
  function OpenByNumber(txns: seq<Txn>, number: string, upTo: nat): (r: Option<nat>)
    requires upTo <= |txns|
    ensures r.Some? ==> r.value < upTo && IsOpen(txns[r.value]) && txns[r.value].number == number
    ensures r.None? ==> forall i :: 0 <= i < upTo ==> !(IsOpen(txns[i]) && txns[i].number == number)
  {
    if upTo == 0 then None
    else
      var before := OpenByNumber(txns, number, upTo - 1);
      if before.Some? then before
      else if IsOpen(txns[upTo - 1]) && txns[upTo - 1].number == number then Some(upTo - 1)
      else None
  }

  /** `_find_matching_transaction`. */
  function FindMatch(txns: seq<Txn>, contacts: map<string, nat>, phone: string, amount: int,
                     accountRef: string): (r: Option<nat>)
    ensures r.Some? ==> r.value < |txns|
  {
    var byNumber := if accountRef != "" then OpenByNumber(txns, accountRef, |txns|) else None;
    if byNumber.Some? then byNumber
    else if phone !in contacts then None
    else
      var open := OpenOf(txns, contacts[phone], |txns|);
      if open == [] then None
      else
        var exact := FirstExact(txns, open, amount);
        if exact.Some? then exact else Some(open[0])
  }

  predicate SortedByDue(txns: seq<Txn>, ids: seq<nat>)
    requires InTable(ids, txns)
  {
    forall i, j :: 0 <= i < j < |ids| ==> DueNoLater(txns[ids[i]], txns[ids[j]])
  }

  lemma {:induction false} InsertKeepsSorted(txns: seq<Txn>, id: nat, ids: seq<nat>)
    requires InTable(ids, txns) && id < |txns| && SortedByDue(txns, ids)
    ensures SortedByDue(txns, InsertByDue(txns, id, ids))
  {
    if ids != [] && !DueNoLater(txns[ids[|ids| - 1]], txns[id]) {
      var n := |ids| - 1;
      var front := InsertByDue(txns, id, ids[..n]);
      InsertKeepsSorted(txns, id, ids[..n]);
      forall i | 0 <= i < |front| ensures DueNoLater(txns[front[i]], txns[ids[n]]) {
        assert front[i] in front;
        if front[i] != id {
          var j :| 0 <= j < n && ids[..n][j] == front[i];
        }
      }
    }
  }

  lemma {:induction false} OpenOfIsSorted(txns: seq<Txn>, contact: nat, upTo: nat)
    requires upTo <= |txns|
    ensures SortedByDue(txns, OpenOf(txns, contact, upTo))
  {
    if upTo > 0 {
      OpenOfIsSorted(txns, contact, upTo - 1);
      InsertKeepsSorted(txns, upTo - 1, OpenOf(txns, contact, upTo - 1));
    }
  }

  lemma {:induction false} OpenOfSelects(txns: seq<Txn>, contact: nat, upTo: nat, id: nat)
    requires upTo <= |txns|
    ensures id in OpenOf(txns, contact, upTo) <==> id < upTo && IsOpen(txns[id]) && txns[id].contact == contact
  {
    if upTo > 0 {
      OpenOfSelects(txns, contact, upTo - 1, id);
    }
  }

  lemma {:induction false} FirstExactIsFirst(txns: seq<Txn>, ids: seq<nat>, amount: int)
    requires InTable(ids, txns) && SortedByDue(txns, ids)
    ensures var r := FirstExact(txns, ids, amount);
      && (r.None? ==> forall i :: 0 <= i < |ids| ==> Balance(txns[ids[i]]) != amount)
      && (r.Some? ==> forall i :: 0 <= i < |ids| && Balance(txns[ids[i]]) == amount ==>
                        ids[i] == r.value || DueNoLater(txns[r.value], txns[ids[i]]))
  {
    if ids != [] && Balance(txns[ids[0]]) != amount {
      FirstExactIsFirst(txns, ids[1..], amount);
      forall i | 0 < i < |ids| ensures ids[i] == ids[1..][i - 1] {
      }
    }
  }

  /** PENDING or PARTIAL, and numbered like the account reference. */
  predicate Numbered(db: Db, accountRef: string, id: nat) {
    && id < |db.txns| && db.txns[id].status in {TxnStatus.Pending, Partial}
    && accountRef != "" && db.txns[id].number == accountRef
  }

  /** PENDING or PARTIAL, and the payer's. */
  predicate Eligible(db: Db, phone: string, id: nat) {
    && id < |db.txns| && db.txns[id].status in {TxnStatus.Pending, Partial}
    && phone in db.contacts && db.txns[id].contact == db.contacts[phone]
  }

  /** What is left to pay on `id` is the amount. */
  predicate Owes(db: Db, id: nat, amount: int) {
    id < |db.txns| && db.txns[id].amountDue == db.txns[id].amountPaid + amount
  }

  /** Due on an earlier day or the same day; a missing due date comes last. */
  predicate DueByThen(db: Db, id: nat, x: nat) {
    && id < |db.txns| && x < |db.txns|
    && (x == id || db.txns[x].dueDate == None
        || (db.txns[id].dueDate != None && db.txns[id].dueDate.value <= db.txns[x].dueDate.value))
  }

  /** Among the payer's open transactions `id` has the exact balance if any has, and is the oldest due such. */
  ghost predicate BestForPayer(db: Db, phone: string, amount: int, id: nat) {
    && Eligible(db, phone, id)
    && (Owes(db, id, amount) ==>
          forall x: nat | Eligible(db, phone, x) && Owes(db, x, amount) :: DueByThen(db, id, x))
    && (!Owes(db, id, amount) ==>
          forall x: nat | Eligible(db, phone, x) :: !Owes(db, x, amount) && DueByThen(db, id, x))
  }

  lemma OldestOrExact(db: Db, phone: string, amount: int)
    requires phone in db.contacts
    ensures var open := OpenOf(db.txns, db.contacts[phone], |db.txns|);
      && (open == [] ==> forall x: nat :: !Eligible(db, phone, x))
      && (open != [] ==>
            var exact := FirstExact(db.txns, open, amount);
            BestForPayer(db, phone, amount, if exact.Some? then exact.value else open[0]))
  {
    var open := OpenOf(db.txns, db.contacts[phone], |db.txns|);
    OpenOfIsSorted(db.txns, db.contacts[phone], |db.txns|);
    FirstExactIsFirst(db.txns, open, amount);
    forall x: nat ensures Eligible(db, phone, x) <==> x in open {
      OpenOfSelects(db.txns, db.contacts[phone], |db.txns|, x);
    }
    forall x: nat | Eligible(db, phone, x) ensures exists i :: 0 <= i < |open| && open[i] == x {
      assert x in open;
    }
    if open != [] {
      assert open[0] in open;
    }
  }

  /**
   The matching rule, stated without the search: an open transaction numbered like the account
   reference wins; otherwise the payer's best; nothing only if there is no candidate at all.
   */
  lemma MatchIsRight(db: Db, phone: string, amount: int, accountRef: string)
    ensures var r := FindMatch(db.txns, db.contacts, phone, amount, accountRef);
      && (r.None? <==> forall x: nat :: !Numbered(db, accountRef, x) && !Eligible(db, phone, x))
      && (r.Some? ==>
            || Numbered(db, accountRef, r.value)
            || ((forall x: nat :: !Numbered(db, accountRef, x)) && BestForPayer(db, phone, amount, r.value)))
  {
    var r := FindMatch(db.txns, db.contacts, phone, amount, accountRef);
    if phone in db.contacts {
      OldestOrExact(db, phone, amount);
    }
    if r.Some? {
      assert Numbered(db, accountRef, r.value) || Eligible(db, phone, r.value);
    } else {
      forall x: nat ensures !Numbered(db, accountRef, x) && !Eligible(db, phone, x) {
      }
    }
  }

  // ---------------------------------------------------------------- crediting

  /** Lookup by receipt code in the three tables that carry one. */
  function ReceiptOf(receipts: seq<Receipt>, ref: string): (r: Option<nat>)
    ensures r.Some? ==> r.value < |receipts| && receipts[r.value].ref == ref
    ensures r.None? ==> forall i :: 0 <= i < |receipts| ==> receipts[i].ref != ref
  {
    if receipts == [] then None
    else
      var n := |receipts| - 1;
      var before := ReceiptOf(receipts[..n], ref);
      if before.Some? then before else if receipts[n].ref == ref then Some(n) else None
  }

  function PaymentOf(payments: seq<Payment>, txn: nat, ref: string): (r: Option<nat>)
    ensures r.Some? ==> r.value < |payments| && payments[r.value].txn == txn && payments[r.value].reference == Some(ref)
    ensures r.None? ==>
              forall p :: 0 <= p < |payments| ==> !(payments[p].txn == txn && payments[p].reference == Some(ref))
  {
    if payments == [] then None
    else
      var n := |payments| - 1;
      var before := PaymentOf(payments[..n], txn, ref);
      if before.Some? then before
      else if payments[n].txn == txn && payments[n].reference == Some(ref) then Some(n)
      else None
  }

  function ConfirmationOf(confirmations: seq<Confirmation>, ref: string): (r: Option<nat>)
    ensures r.Some? ==> r.value < |confirmations| && confirmations[r.value].ref == ref
    ensures r.None? ==> forall c :: 0 <= c < |confirmations| ==> confirmations[c].ref != ref
  {
    if confirmations == [] then None
    else
      var n := |confirmations| - 1;
      var before := ConfirmationOf(confirmations[..n], ref);
      if before.Some? then before else if confirmations[n].ref == ref then Some(n) else None
  }

  /** `record_payment` on the database. */
  function Recorded(db: Db, txn: nat, amount: int, reference: Option<string>): Result<Db>
    requires txn < |db.txns|
  {
    if amount <= 0 then Err("Payment amount must be positive")
    else Ok(db.(payments := db.payments + [Payment(txn, amount, reference)],
                txns := db.txns[txn := Credited(db.txns[txn], amount)]))
  }

  /** `_send_confirmation_sms`. */
  function Confirmed(db: Db, txn: nat, amount: int, ref: string): Db
    requires txn < |db.txns|
  {
    if ConfirmationOf(db.confirmations, ref).Some? then db
    else
      var t := db.txns[txn];
      db.(confirmations := db.confirmations + [Confirmation(ref, t.contact, amount, Balance(t))])
  }

  /** Reconcile, link and confirm receipt `i` against a transaction. */
  function CreditReceipt(db: Db, i: nat, txn: nat): Result<Db>
    requires i < |db.receipts| && txn < |db.txns|
  {
    var r := db.receipts[i];
    var existing := PaymentOf(db.payments, txn, r.ref);
    var paid := if existing.Some? then Ok(db) else Recorded(db, txn, r.amount, Some(r.ref));
    match paid
    case Err(e) => Err(e)
    case Ok(d) =>
      var pid := if existing.Some? then existing.value else |db.payments|;
      var linked := db.receipts[i := r.(payment := Some(pid), matched := Some(txn))];
      Ok(Confirmed(d.(receipts := linked), txn, r.amount, r.ref))
  }

  /** `match_incoming_payment` (no `explicit` transaction) and `process_stk_callback`; an exception rolls back. */
  function Received(db: Db, ref: string, phone: string, amount: int, accountRef: string, source: Source,
                    explicit: Option<nat>): Db
  {
    if ReceiptOf(db.receipts, ref).Some? then db
    else
      var i := |db.receipts|;
      var stored := db.(receipts := db.receipts + [Receipt(ref, phone, amount, accountRef, source, None, None)]);
      var txn := if explicit.None? then FindMatch(db.txns, db.contacts, phone, amount, accountRef)
                 else if explicit.value < |db.txns| then explicit else None;
      if txn.None? then stored
      else match CreditReceipt(stored, i, txn.value)
        case Err(_) => db
        case Ok(d) => d
  }

  /** `_async_process_mpesa_payment` up to the suppression of reminders. */
  function Processed(db: Db, i: nat): Db {
    if i >= |db.receipts| || db.receipts[i].matched.Some? then db
    else
      var r := db.receipts[i];
      var txn := FindMatch(db.txns, db.contacts, r.phone, r.amount, r.accountRef);
      if txn.None? then db
      else match CreditReceipt(db, i, txn.value)
        case Err(_) => db
        case Ok(d) => d
  }

  /** The hourly sweep goes through the receipts that were unmatched when it started. */
  function SweepOver(db: Db, ids: seq<nat>): Db {
    if ids == [] then db else Processed(SweepOver(db, ids[..|ids| - 1]), ids[|ids| - 1])
  }

  function Unmatched(receipts: seq<Receipt>): (ids: seq<nat>)
    ensures forall k :: 0 <= k < |ids| ==> ids[k] < |receipts| && receipts[ids[k]].matched.None?
    ensures forall i :: 0 <= i < |receipts| && receipts[i].matched.None? ==> i in ids
    ensures Distinct(ids)
  {
    if receipts == [] then []
    else
      var n := |receipts| - 1;
      Unmatched(receipts[..n]) + if receipts[n].matched.None? then [n] else []
  }

  // ---------------------------------------------------------------- the invariant

  predicate ReceiptOk(db: Db, i: nat)
    requires i < |db.receipts|
  {
    var r := db.receipts[i];
    && ReceiptOf(db.receipts, r.ref) == Some(i)
    && (r.payment.Some? <==> r.matched.Some?)
    && (r.payment.Some? ==>
          && r.payment.value < |db.payments|
          && db.payments[r.payment.value] == Payment(r.matched.value, r.amount, Some(r.ref))
          && ConfirmationOf(db.confirmations, r.ref).Some?)
  }

  predicate PaymentOk(db: Db, p: nat)
    requires p < |db.payments|
  {
    && db.payments[p].txn < |db.txns|
    && (db.payments[p].reference.Some? ==>
          var i := ReceiptOf(db.receipts, db.payments[p].reference.value);
          i.Some? && db.receipts[i.value].payment == Some(p))
  }

  predicate ConfirmationOk(db: Db, c: nat)
    requires c < |db.confirmations|
  {
    var ref := db.confirmations[c].ref;
    && ConfirmationOf(db.confirmations, ref) == Some(c)
    && var i := ReceiptOf(db.receipts, ref); i.Some? && db.receipts[i.value].matched.Some?
  }

  ghost predicate Consistent(db: Db) {
    && (forall i: nat | i < |db.receipts| :: ReceiptOk(db, i))
    && (forall p: nat | p < |db.payments| :: PaymentOk(db, p))
    && (forall c: nat | c < |db.confirmations| :: ConfirmationOk(db, c))
    && MpesaTotal(db.payments) == MatchedTotal(db.receipts)
  }

  /** Sum of the M-Pesa payments. */
  function MpesaTotal(payments: seq<Payment>): int {
    if payments == [] then 0
    else MpesaTotal(payments[..|payments| - 1])
         + if payments[|payments| - 1].reference.Some? then payments[|payments| - 1].amount else 0
  }

  /** Sum of the matched receipts. */
  function MatchedTotal(receipts: seq<Receipt>): int {
    if receipts == [] then 0
    else MatchedTotal(receipts[..|receipts| - 1])
         + if receipts[|receipts| - 1].matched.Some? then receipts[|receipts| - 1].amount else 0
  }

  lemma {:induction false} MatchedTotalUpdate(receipts: seq<Receipt>, i: nat, r: Receipt)
    requires i < |receipts| && receipts[i].matched.None? && r.matched.Some?
    ensures MatchedTotal(receipts[i := r]) == MatchedTotal(receipts) + r.amount
  {
    var n := |receipts| - 1;
    if i < n {
      MatchedTotalUpdate(receipts[..n], i, r);
      assert receipts[i := r][..n] == receipts[..n][i := r];
    } else {
      assert receipts[i := r][..n] == receipts[..n];
    }
  }

  lemma {:induction false} ReceiptOfUpdate(receipts: seq<Receipt>, i: nat, r: Receipt, ref: string)
    requires i < |receipts| && r.ref == receipts[i].ref
    ensures ReceiptOf(receipts[i := r], ref) == ReceiptOf(receipts, ref)
  {
    var n := |receipts| - 1;
    if i < n {
      ReceiptOfUpdate(receipts[..n], i, r, ref);
      assert receipts[i := r][..n] == receipts[..n][i := r];
    } else {
      assert receipts[i := r][..n] == receipts[..n];
    }
  }

  /** An unmatched receipt: no payment and no confirmation carries its code yet. */
  lemma UnmatchedIsUnpaid(db: Db, i: nat)
    requires Consistent(db) && i < |db.receipts| && db.receipts[i].matched.None?
    ensures forall p: nat | p < |db.payments| :: db.payments[p].reference != Some(db.receipts[i].ref)
    ensures ConfirmationOf(db.confirmations, db.receipts[i].ref).None?
  {
    assert ReceiptOk(db, i);
    forall p: nat | p < |db.payments| ensures db.payments[p].reference != Some(db.receipts[i].ref) {
      assert PaymentOk(db, p);
    }
    forall c: nat | c < |db.confirmations| ensures db.confirmations[c].ref != db.receipts[i].ref {
      assert ConfirmationOk(db, c);
    }
  }

  /** The database after an unmatched receipt `i` has been credited to `txn`: one new row in each table. */
  function Settled(db: Db, i: nat, txn: nat): Db
    requires i < |db.receipts| && txn < |db.txns|
  {
    var r := db.receipts[i];
    var t := Credited(db.txns[txn], r.amount);
    db.(txns := db.txns[txn := t],
        payments := db.payments + [Payment(txn, r.amount, Some(r.ref))],
        receipts := db.receipts[i := r.(payment := Some(|db.payments|), matched := Some(txn))],
        confirmations := db.confirmations + [Confirmation(r.ref, t.contact, r.amount, Balance(t))])
  }

  /** What crediting a receipt writes, on the columns: one payment, the link, the capped amount, one confirmation. */
  lemma SettledWrites(db: Db, i: nat, txn: nat)
    requires i < |db.receipts| && txn < |db.txns|
    ensures var r, t, after := db.receipts[i], db.txns[txn], Settled(db, i, txn);
      var sum := t.amountPaid + r.amount;
      && after.payments == db.payments + [Payment(txn, r.amount, Some(r.ref))]
      && after.receipts == db.receipts[i := r.(payment := Some(|db.payments|), matched := Some(txn))]
      && after.txns == db.txns[txn := t.(amountPaid := Min(t.amountDue, sum),
                                         status := if sum >= t.amountDue then Paid
                                                   else if sum > 0 then Partial else t.status)]
      && after.confirmations
         == db.confirmations + [Confirmation(r.ref, t.contact, r.amount, Max(0, t.amountDue - sum))]
      && after.contacts == db.contacts
  {
  }

  /** Crediting raises exactly on a non-positive amount; otherwise it adds one payment and one confirmation. */
  lemma CreditSettles(db: Db, i: nat, txn: nat)
    requires Consistent(db) && i < |db.receipts| && db.receipts[i].matched.None? && txn < |db.txns|
    ensures CreditReceipt(db, i, txn) == if db.receipts[i].amount <= 0
                                         then Err("Payment amount must be positive") else Ok(Settled(db, i, txn))
  {
    UnmatchedIsUnpaid(db, i);
  }

  lemma SettledReceipts(db: Db, i: nat, txn: nat, k: nat)
    requires Consistent(db) && i < |db.receipts| && db.receipts[i].matched.None? && txn < |db.txns| && k < |db.receipts|
    ensures ReceiptOk(Settled(db, i, txn), k)
  {
    var db' := Settled(db, i, txn);
    var r := db'.receipts[k];
    assert ReceiptOk(db, k) && ReceiptOk(db, i);
    ReceiptOfUpdate(db.receipts, i, db'.receipts[i], r.ref);
    assert db'.confirmations[..|db.confirmations|] == db.confirmations;
  }

  lemma SettledPayments(db: Db, i: nat, txn: nat, p: nat)
    requires Consistent(db) && i < |db.receipts| && db.receipts[i].matched.None? && txn < |db.txns|
    requires p <= |db.payments|
    ensures PaymentOk(Settled(db, i, txn), p)
  {
    var db' := Settled(db, i, txn);
    assert ReceiptOk(db, i);
    if p < |db.payments| {
      assert PaymentOk(db, p);
    }
    if db'.payments[p].reference.Some? {
      ReceiptOfUpdate(db.receipts, i, db'.receipts[i], db'.payments[p].reference.value);
    }
  }

  lemma SettledConfirmations(db: Db, i: nat, txn: nat, c: nat)
    requires Consistent(db) && i < |db.receipts| && db.receipts[i].matched.None? && txn < |db.txns|
    requires c <= |db.confirmations|
    ensures ConfirmationOk(Settled(db, i, txn), c)
  {
    var db' := Settled(db, i, txn);
    UnmatchedIsUnpaid(db, i);
    assert ReceiptOk(db, i);
    assert db'.confirmations[..|db.confirmations|] == db.confirmations;
    if c < |db.confirmations| {
      assert ConfirmationOk(db, c);
    }
    ReceiptOfUpdate(db.receipts, i, db'.receipts[i], db'.confirmations[c].ref);
  }

  lemma SettledIsConsistent(db: Db, i: nat, txn: nat)
    requires Consistent(db) && i < |db.receipts| && db.receipts[i].matched.None? && txn < |db.txns|
    ensures Consistent(Settled(db, i, txn))
  {
    var db' := Settled(db, i, txn);
    forall k: nat | k < |db'.receipts| ensures ReceiptOk(db', k) {
      SettledReceipts(db, i, txn, k);
    }
    forall p: nat | p < |db'.payments| ensures PaymentOk(db', p) {
      SettledPayments(db, i, txn, p);
    }
    forall c: nat | c < |db'.confirmations| ensures ConfirmationOk(db', c) {
      SettledConfirmations(db, i, txn, c);
    }
    MatchedTotalUpdate(db.receipts, i, db'.receipts[i]);
    assert db'.payments[..|db.payments|] == db.payments;
  }

  /** A receipt code not seen before may be stored. */
  lemma StoredIsConsistent(db: Db, r: Receipt)
    requires Consistent(db) && ReceiptOf(db.receipts, r.ref).None? && r.payment.None? && r.matched.None?
    ensures Consistent(db.(receipts := db.receipts + [r]))
  {
    var db' := db.(receipts := db.receipts + [r]);
    assert db'.receipts[..|db.receipts|] == db.receipts;
    forall k: nat | k < |db'.receipts| ensures ReceiptOk(db', k) {
      if k < |db.receipts| {
        assert ReceiptOk(db, k);
      }
    }
    forall p: nat | p < |db'.payments| ensures PaymentOk(db', p) {
      assert PaymentOk(db, p);
    }
    forall c: nat | c < |db'.confirmations| ensures ConfirmationOk(db', c) {
      assert ConfirmationOk(db, c);
    }
  }

  lemma ProcessedIsConsistent(db: Db, i: nat)
    requires Consistent(db)
    ensures Consistent(Processed(db, i)) && Extends(db, Processed(db, i))
  {
    if i < |db.receipts| && db.receipts[i].matched.None? {
      var r := db.receipts[i];
      var txn := FindMatch(db.txns, db.contacts, r.phone, r.amount, r.accountRef);
      if txn.Some? {
        CreditSettles(db, i, txn.value);
        SettledIsConsistent(db, i, txn.value);
      }
    }
  }

  /**
   The right effect of the task on receipt `i`: credited to the transaction the matching rule names if its amount is
   positive and there is a candidate at all; otherwise, or if it was matched before, nothing.
   */
  ghost predicate CreditsMatch(db: Db, i: nat, after: Db) {
    if i < |db.receipts| && db.receipts[i].matched == None && db.receipts[i].amount > 0
       && exists x: nat :: Numbered(db, db.receipts[i].accountRef, x) || Eligible(db, db.receipts[i].phone, x)
    then
      var r := db.receipts[i];
      exists t: nat | t < |db.txns| ::
        && after == Settled(db, i, t)
        && (Numbered(db, r.accountRef, t)
            || ((forall x: nat :: !Numbered(db, r.accountRef, x)) && BestForPayer(db, r.phone, r.amount, t)))
    else after == db
  }

  lemma ProcessedCreditsMatch(db: Db, i: nat)
    requires Consistent(db)
    ensures CreditsMatch(db, i, Processed(db, i))
  {
    if i < |db.receipts| && db.receipts[i].matched.None? {
      var r := db.receipts[i];
      var txn := FindMatch(db.txns, db.contacts, r.phone, r.amount, r.accountRef);
      MatchIsRight(db, r.phone, r.amount, r.accountRef);
      if txn.Some? {
        CreditSettles(db, i, txn.value);
        assert Numbered(db, r.accountRef, txn.value) || Eligible(db, r.phone, txn.value);
      }
    }
  }

  /** Receipts keep what was sent, matched ones stay matched, and no transaction opens. */
  ghost predicate Closes(db: Db, after: Db) {
    && |after.receipts| == |db.receipts| && |after.txns| == |db.txns| && after.contacts == db.contacts
    && (forall j: nat | j < |db.receipts| ::
          && after.receipts[j] == db.receipts[j].(payment := after.receipts[j].payment,
                                                  matched := after.receipts[j].matched)
          && (db.receipts[j].matched.Some? ==> after.receipts[j].matched.Some?))
    && (forall x: nat | x < |db.txns| ::
          && after.txns[x].number == db.txns[x].number && after.txns[x].contact == db.txns[x].contact
          && (IsOpen(after.txns[x]) ==> IsOpen(db.txns[x])))
  }

  /** The receipt is matched, or its amount is not positive, or no transaction is left that it could be matched to. */
  ghost predicate NothingToMatch(db: Db, j: nat) {
    j < |db.receipts| && db.receipts[j].matched == None && db.receipts[j].amount > 0 ==>
      forall x: nat :: !Numbered(db, db.receipts[j].accountRef, x) && !Eligible(db, db.receipts[j].phone, x)
  }

  lemma ProcessedCloses(db: Db, i: nat)
    requires Consistent(db)
    ensures Closes(db, Processed(db, i)) && NothingToMatch(Processed(db, i), i)
  {
    ProcessedCreditsMatch(db, i);
  }

  lemma NothingToMatchStays(db: Db, after: Db, j: nat)
    requires Closes(db, after) && NothingToMatch(db, j)
    ensures NothingToMatch(after, j)
  {
    if j < |after.receipts| && after.receipts[j].matched == None && after.receipts[j].amount > 0 {
      forall x: nat
        ensures !Numbered(after, after.receipts[j].accountRef, x) && !Eligible(after, after.receipts[j].phone, x)
      {
        assert !Numbered(db, db.receipts[j].accountRef, x) && !Eligible(db, db.receipts[j].phone, x);
      }
    }
  }

  lemma {:induction false} SweepMatches(db: Db, ids: seq<nat>)
    requires Consistent(db)
    ensures Closes(db, SweepOver(db, ids))
    ensures forall k :: 0 <= k < |ids| ==> NothingToMatch(SweepOver(db, ids), ids[k])
  {
    if ids != [] {
      var n := |ids| - 1;
      var before, after := SweepOver(db, ids[..n]), SweepOver(db, ids);
      SweepMatches(db, ids[..n]);
      SweepIsConsistent(db, ids[..n]);
      ProcessedCloses(before, ids[n]);
      forall k | 0 <= k < n ensures NothingToMatch(after, ids[k]) {
        assert ids[..n][k] == ids[k];
        NothingToMatchStays(before, after, ids[k]);
      }
    }
  }

  /** After the hourly sweep every receipt that could be matched is. */
  lemma SweepLeavesNothing(db: Db)
    requires Consistent(db)
    ensures forall j: nat :: NothingToMatch(SweepOver(db, Unmatched(db.receipts)), j)
  {
    var ids := Unmatched(db.receipts);
    SweepMatches(db, ids);
    forall j: nat ensures NothingToMatch(SweepOver(db, ids), j) {
      if j < |db.receipts| && db.receipts[j].matched.None? {
        assert j in ids;
      }
    }
  }

  lemma {:induction false} SweepIsConsistent(db: Db, ids: seq<nat>)
    requires Consistent(db)
    ensures Consistent(SweepOver(db, ids)) && Extends(db, SweepOver(db, ids))
  {
    if ids != [] {
      SweepIsConsistent(db, ids[..|ids| - 1]);
      ProcessedIsConsistent(SweepOver(db, ids[..|ids| - 1]), ids[|ids| - 1]);
    }
  }

  /**
   A receipt code seen for the first time: stored unmatched if nothing matches, otherwise credited
   to the selected transaction and to no other; with a match and a non-positive amount nothing is kept.
   */
  lemma FirstNotificationCredits(db: Db, ref: string, phone: string, amount: int, accountRef: string, source: Source,
                                 explicit: Option<nat>)
    requires Consistent(db) && ReceiptOf(db.receipts, ref).None?
    ensures var r := Receipt(ref, phone, amount, accountRef, source, None, None);
      var stored := db.(receipts := db.receipts + [r]);
      var txn := if explicit.None? then FindMatch(db.txns, db.contacts, phone, amount, accountRef)
                 else if explicit.value < |db.txns| then explicit else None;
      Received(db, ref, phone, amount, accountRef, source, explicit)
      == if txn.None? then stored
         else if amount <= 0 then db
         else Settled(stored, |db.receipts|, txn.value)
    ensures Consistent(Received(db, ref, phone, amount, accountRef, source, explicit))
    ensures Extends(db, Received(db, ref, phone, amount, accountRef, source, explicit))
  {
    var r := Receipt(ref, phone, amount, accountRef, source, None, None);
    var stored := db.(receipts := db.receipts + [r]);
    StoredIsConsistent(db, r);
    var txn := if explicit.None? then FindMatch(db.txns, db.contacts, phone, amount, accountRef)
               else if explicit.value < |db.txns| then explicit else None;
    if txn.Some? {
      CreditSettles(stored, |db.receipts|, txn.value);
      SettledIsConsistent(stored, |db.receipts|, txn.value);
    }
  }

  // ---------------------------------------------------------------- runs

  datatype Event =
    | Notify(ref: string, phone: string, amount: int, accountRef: string, source: Source, explicit: Option<nat>)
    | Process(i: nat)
    | Sweep
    | Cash(txn: nat, amount: int)
    | Move(txn: nat, to: TxnStatus)
    | NewTxn(number: string, contact: nat, kind: TxnType, amountDue: int, dueDate: Option<int>, today: int)
    | NewContact(phone: string, contact: nat)

  function Step(db: Db, e: Event): Db {
    match e
    case Notify(ref, phone, amount, accountRef, source, explicit) =>
      Received(db, ref, phone, amount, accountRef, source, explicit)
    case Process(i) => Processed(db, i)
    case Sweep => SweepOver(db, Unmatched(db.receipts))
    case Cash(txn, amount) =>
      if txn < |db.txns| && Recorded(db, txn, amount, None).Ok? then Recorded(db, txn, amount, None).value else db
    case Move(txn, to) =>
      if txn < |db.txns| && Moved(db.txns[txn], to).Ok? then db.(txns := db.txns[txn := Moved(db.txns[txn], to).value])
      else db
    case NewTxn(number, contact, kind, amountDue, dueDate, today) =>
      var t := Created(number, contact, kind, amountDue, dueDate, today);
      if t.Ok? then db.(txns := db.txns + [t.value]) else db
    case NewContact(phone, contact) =>
      if phone in db.contacts then db else db.(contacts := db.contacts[phone := contact])
  }

  const EMPTY := Db([], [], [], [], map[])

  function After(db: Db, es: seq<Event>): Db {
    if es == [] then db else Step(After(db, es[..|es| - 1]), es[|es| - 1])
  }

  /** A run takes every one of its events, and each event is the operation it names. */
  lemma RunTakesEveryStep(es: seq<Event>, e: Event)
    ensures After(EMPTY, []) == EMPTY && After(EMPTY, es + [e]) == Step(After(EMPTY, es), e)
    ensures var db, after := After(EMPTY, es), After(EMPTY, es + [e]);
      && (e.Notify? ==> after == Received(db, e.ref, e.phone, e.amount, e.accountRef, e.source, e.explicit))
      && (e.Process? ==> after == Processed(db, e.i))
      && (e.Sweep? ==> after == SweepOver(db, Unmatched(db.receipts)))
      && (e.Cash? ==>
            after == if e.txn >= |db.txns| || e.amount <= 0 then db
                     else db.(payments := db.payments + [Payment(e.txn, e.amount, None)],
                              txns := db.txns[e.txn := Credited(db.txns[e.txn], e.amount)]))
      && (e.Move? ==>
            after == if e.txn >= |db.txns| || Moved(db.txns[e.txn], e.to).Err? then db
                     else db.(txns := db.txns[e.txn := Moved(db.txns[e.txn], e.to).value]))
      && (e.NewTxn? ==>
            var t := Created(e.number, e.contact, e.kind, e.amountDue, e.dueDate, e.today);
            after == if t.Err? then db else db.(txns := db.txns + [t.value]))
      && (e.NewContact? ==>
            after == if e.phone in db.contacts then db else db.(contacts := db.contacts[e.phone := e.contact]))
  {
    assert (es + [e])[..|es|] == es;
  }

  /** Nothing that has been credited is ever touched again. */
  ghost predicate Extends(db: Db, db': Db) {
    && |db.txns| <= |db'.txns|
    && db.payments <= db'.payments
    && db.confirmations <= db'.confirmations
    && |db.receipts| <= |db'.receipts|
    && forall i: nat | i < |db.receipts| ::
         && db'.receipts[i].ref == db.receipts[i].ref && db'.receipts[i].amount == db.receipts[i].amount
         && (db.receipts[i].matched.Some? ==> db'.receipts[i] == db.receipts[i])
  }

  lemma StepIsConsistent(db: Db, e: Event)
    requires Consistent(db)
    ensures Consistent(Step(db, e)) && Extends(db, Step(db, e))
  {
    match e {
      case Notify(ref, phone, amount, accountRef, source, explicit) =>
        if ReceiptOf(db.receipts, ref).None? {
          FirstNotificationCredits(db, ref, phone, amount, accountRef, source, explicit);
        }
      case Process(i) => ProcessedIsConsistent(db, i);
      case Sweep => SweepIsConsistent(db, Unmatched(db.receipts));
      case _ => OtherStepIsConsistent(db, e);
    }
  }

  lemma OtherStepIsConsistent(db: Db, e: Event)
    requires Consistent(db) && !e.Notify? && !e.Process? && !e.Sweep?
    ensures Consistent(Step(db, e)) && Extends(db, Step(db, e))
  {
    if e.Cash? {
      if e.txn < |db.txns| && e.amount > 0 {
        CashIsConsistent(db, e.txn, e.amount);
      }
    } else {
      SameBooksStayConsistent(db, Step(db, e));
    }
  }

  /** Receipts, payments and confirmations as before, and no transaction less. */
  lemma SameBooksStayConsistent(db: Db, db': Db)
    requires Consistent(db) && db'.receipts == db.receipts && db'.payments == db.payments
             && db'.confirmations == db.confirmations
    requires |db.txns| <= |db'.txns|
    ensures Consistent(db')
  {
    forall k: nat | k < |db'.receipts| ensures ReceiptOk(db', k) {
      assert ReceiptOk(db, k);
    }
    forall p: nat | p < |db'.payments| ensures PaymentOk(db', p) {
      assert PaymentOk(db, p);
    }
    forall c: nat | c < |db'.confirmations| ensures ConfirmationOk(db', c) {
      assert ConfirmationOk(db, c);
    }
  }

  lemma CashIsConsistent(db: Db, txn: nat, amount: int)
    requires Consistent(db) && txn < |db.txns| && amount > 0
    ensures Consistent(Recorded(db, txn, amount, None).value)
  {
    var db' := Recorded(db, txn, amount, None).value;
    assert db'.payments[..|db.payments|] == db.payments;
    forall k: nat | k < |db'.receipts| ensures ReceiptOk(db', k) {
      assert ReceiptOk(db, k);
    }
    forall p: nat | p < |db'.payments| ensures PaymentOk(db', p) {
      if p < |db.payments| {
        assert PaymentOk(db, p);
      }
    }
    forall c: nat | c < |db'.confirmations| ensures ConfirmationOk(db', c) {
      assert ConfirmationOk(db, c);
    }
  }

  lemma {:induction false} RunIsConsistent(es: seq<Event>)
    ensures Consistent(After(EMPTY, es))
  {
    if es != [] {
      RunIsConsistent(es[..|es| - 1]);
      StepIsConsistent(After(EMPTY, es[..|es| - 1]), es[|es| - 1]);
    }
  }

  /** No receipt code occurs twice among receipts, among payments, or among confirmations. */
  ghost predicate CodesUnique(db: Db) {
    && (forall i, j :: 0 <= i < j < |db.receipts| ==> db.receipts[i].ref != db.receipts[j].ref)
    && (forall p, q :: 0 <= p < q < |db.payments| && db.payments[p].reference.Some? ==>
          db.payments[p].reference != db.payments[q].reference)
    && (forall c, d :: 0 <= c < d < |db.confirmations| ==> db.confirmations[c].ref != db.confirmations[d].ref)
  }

  /** A matched receipt has its payment and confirmation, an unmatched one has neither. */
  ghost predicate CreditedOnce(db: Db, r: Receipt) {
    && (r.payment.Some? <==> r.matched.Some?)
    && (r.matched.Some? ==> r.payment.value < |db.payments|
                            && db.payments[r.payment.value] == Payment(r.matched.value, r.amount, Some(r.ref)))
    && (r.matched.None? ==> forall p: nat | p < |db.payments| :: db.payments[p].reference != Some(r.ref))
    && (r.matched.Some? <==> ConfirmationOf(db.confirmations, r.ref).Some?)
  }

  lemma ConsistentCodesUnique(db: Db)
    requires Consistent(db)
    ensures CodesUnique(db)
  {
    forall i, j | 0 <= i < j < |db.receipts| ensures db.receipts[i].ref != db.receipts[j].ref {
      assert ReceiptOk(db, i) && ReceiptOk(db, j);
    }
    forall p, q | 0 <= p < q < |db.payments| && db.payments[p].reference.Some?
      ensures db.payments[p].reference != db.payments[q].reference
    {
      assert PaymentOk(db, p) && PaymentOk(db, q);
    }
    forall c, d | 0 <= c < d < |db.confirmations| ensures db.confirmations[c].ref != db.confirmations[d].ref {
      assert ConfirmationOk(db, c) && ConfirmationOk(db, d);
    }
  }

  lemma ConsistentCreditedOnce(db: Db, i: nat)
    requires Consistent(db) && i < |db.receipts|
    ensures CreditedOnce(db, db.receipts[i])
  {
    assert ReceiptOk(db, i);
    if db.receipts[i].matched.None? {
      UnmatchedIsUnpaid(db, i);
    }
  }

  /**
   Exactly once: over any run of repeated notifications, redelivered tasks and sweeps mixed with
   cash payments, status changes and new transactions and contacts.
   */
  lemma CreditedExactlyOnce(es: seq<Event>)
    ensures var db := After(EMPTY, es);
      && CodesUnique(db)
      && (forall i: nat | i < |db.receipts| :: CreditedOnce(db, db.receipts[i]))
      && MpesaTotal(db.payments) == MatchedTotal(db.receipts)
  {
    var db := After(EMPTY, es);
    RunIsConsistent(es);
    ConsistentCodesUnique(db);
    forall i: nat | i < |db.receipts| ensures CreditedOnce(db, db.receipts[i]) {
      ConsistentCreditedOnce(db, i);
    }
  }

  /** What a run has credited stays credited, to the same transaction by the same payment. */
  lemma {:induction false} CreditsArePermanent(es: seq<Event>, k: nat)
    requires k <= |es|
    ensures Extends(After(EMPTY, es[..k]), After(EMPTY, es))
    decreases |es|
  {
    if k == |es| {
      assert es[..k] == es;
    } else {
      var n := |es| - 1;
      CreditsArePermanent(es[..n], k);
      assert es[..n][..k] == es[..k];
      RunIsConsistent(es[..n]);
      StepIsConsistent(After(EMPTY, es[..n]), es[n]);
    }
  }

  /** A repeated notification, whatever else it says, and a redelivered task change nothing. */
  lemma RepeatsAreNoOps(db: Db, ref: string, phone: string, amount: int, accountRef: string, source: Source,
                        explicit: Option<nat>, i: nat)
    requires Consistent(db)
    ensures ReceiptOf(db.receipts, ref).Some? ==> Received(db, ref, phone, amount, accountRef, source, explicit) == db
    ensures Processed(Processed(db, i), i) == Processed(db, i)
  {
    if i < |db.receipts| && db.receipts[i].matched.None? {
      var r := db.receipts[i];
      var txn := FindMatch(db.txns, db.contacts, r.phone, r.amount, r.accountRef);
      if txn.Some? {
        CreditSettles(db, i, txn.value);
      }
    }
  }

  // ---------------------------------------------------------------- balances

  /** Sum of the payments recorded against a transaction. */
  function PaidOn(payments: seq<Payment>, txn: nat): int {
    if payments == [] then 0
    else PaidOn(payments[..|payments| - 1], txn)
         + if payments[|payments| - 1].txn == txn then payments[|payments| - 1].amount else 0
  }

  predicate TxnBalanced(db: Db, t: nat)
    requires t < |db.txns|
  {
    var sum := PaidOn(db.payments, t);
    && db.txns[t].amountDue > 0 && sum >= 0
    && db.txns[t].amountPaid == Min(db.txns[t].amountDue, sum)
    && db.txns[t].status == StatusFor(sum, db.txns[t].amountDue)
  }

  ghost predicate Balanced(db: Db) {
    && (forall t: nat | t < |db.txns| :: TxnBalanced(db, t))
    && (forall p: nat | p < |db.payments| :: db.payments[p].txn < |db.txns|)
  }

  lemma {:induction false} NothingPaidOn(payments: seq<Payment>, txn: nat)
    requires forall p: nat | p < |payments| :: payments[p].txn < txn
    ensures PaidOn(payments, txn) == 0
  {
    if payments != [] {
      NothingPaidOn(payments[..|payments| - 1], txn);
    }
  }

  lemma RecordedIsBalanced(db: Db, txn: nat, amount: int, reference: Option<string>)
    requires Balanced(db) && txn < |db.txns| && amount > 0
    ensures Balanced(Recorded(db, txn, amount, reference).value)
  {
    var db' := Recorded(db, txn, amount, reference).value;
    assert db'.payments[..|db.payments|] == db.payments;
    forall t: nat | t < |db'.txns| ensures TxnBalanced(db', t) {
      assert TxnBalanced(db, t);
    }
  }

  lemma SettledIsBalanced(db: Db, i: nat, txn: nat)
    requires Balanced(db) && i < |db.receipts| && txn < |db.txns| && db.receipts[i].amount > 0
    ensures Balanced(Settled(db, i, txn))
  {
    var r := db.receipts[i];
    RecordedIsBalanced(db, txn, r.amount, Some(r.ref));
    SameBooks(Recorded(db, txn, r.amount, Some(r.ref)).value, Settled(db, i, txn));
  }

  lemma SameBooks(db: Db, db': Db)
    requires Balanced(db) && db'.txns == db.txns && db'.payments == db.payments
    ensures Balanced(db')
  {
    forall t: nat | t < |db'.txns| ensures TxnBalanced(db', t) {
      assert TxnBalanced(db, t);
    }
  }

  lemma ProcessedIsBalanced(db: Db, i: nat)
    requires Consistent(db) && Balanced(db)
    ensures Balanced(Processed(db, i))
  {
    if i < |db.receipts| && db.receipts[i].matched.None? {
      var r := db.receipts[i];
      var txn := FindMatch(db.txns, db.contacts, r.phone, r.amount, r.accountRef);
      if txn.Some? && db.receipts[i].amount > 0 {
        CreditSettles(db, i, txn.value);
        SettledIsBalanced(db, i, txn.value);
      } else if txn.Some? {
        CreditSettles(db, i, txn.value);
      }
    }
  }

  lemma {:induction false} SweepIsBalanced(db: Db, ids: seq<nat>)
    requires Consistent(db) && Balanced(db)
    ensures Balanced(SweepOver(db, ids))
  {
    if ids != [] {
      SweepIsBalanced(db, ids[..|ids| - 1]);
      SweepIsConsistent(db, ids[..|ids| - 1]);
      ProcessedIsBalanced(SweepOver(db, ids[..|ids| - 1]), ids[|ids| - 1]);
    }
  }

  lemma StepIsBalanced(db: Db, e: Event)
    requires Consistent(db) && Balanced(db) && !e.Move?
    ensures Balanced(Step(db, e))
  {
    match e {
      case Notify(ref, phone, amount, accountRef, source, explicit) =>
        if ReceiptOf(db.receipts, ref).None? {
          FirstNotificationCredits(db, ref, phone, amount, accountRef, source, explicit);
          var stored := db.(receipts := db.receipts + [Receipt(ref, phone, amount, accountRef, source, None, None)]);
          SameBooks(db, stored);
          var txn := if explicit.None? then FindMatch(db.txns, db.contacts, phone, amount, accountRef)
                     else if explicit.value < |db.txns| then explicit else None;
          if txn.Some? && amount > 0 {
            SettledIsBalanced(stored, |db.receipts|, txn.value);
          }
        }
      case Process(i) => ProcessedIsBalanced(db, i);
      case Sweep => SweepIsBalanced(db, Unmatched(db.receipts));
      case Cash(txn, amount) =>
        if txn < |db.txns| && amount > 0 {
          RecordedIsBalanced(db, txn, amount, None);
        }
      case NewTxn(number, contact, kind, amountDue, dueDate, today) =>
        var db' := Step(db, e);
        NothingPaidOn(db.payments, |db.txns|);
        forall t: nat | t < |db'.txns| ensures TxnBalanced(db', t) {
          if t < |db.txns| {
            assert TxnBalanced(db, t);
          }
        }
      case NewContact(_, _) => SameBooks(db, Step(db, e));
    }
  }

  /** Without manual status changes every transaction shows the money recorded against it, capped at what is due. */
  lemma {:induction false} BalancesAddUp(es: seq<Event>)
    requires forall k :: 0 <= k < |es| ==> !es[k].Move?
    ensures Balanced(After(EMPTY, es))
  {
    if es != [] {
      BalancesAddUp(es[..|es| - 1]);
      RunIsConsistent(es[..|es| - 1]);
      StepIsBalanced(After(EMPTY, es[..|es| - 1]), es[|es| - 1]);
    }
  }

  // ---------------------------------------------------------------- the service, updating tables in place

  class MpesaService {
    const table: TransactionTable
    var receipts: seq<Receipt>
    var confirmations: seq<Confirmation>
    var contacts: map<string, nat>

    constructor (table: TransactionTable, contacts: map<string, nat>)
      ensures this.table == table && receipts == [] && confirmations == [] && this.contacts == contacts
    {
      this.table, this.receipts, this.confirmations, this.contacts := table, [], [], contacts;
    }

    function View(): Db
      reads this, table
    {
      Db(table.txns, table.payments, receipts, confirmations, contacts)
    }

    /** The search loop over the payer's open transactions, oldest first. */
    method FindMatchingTransaction(phone: string, amount: int, accountRef: string) returns (r: Option<nat>)
      ensures r == FindMatch(table.txns, contacts, phone, amount, accountRef)
    {
      if accountRef != "" {
        var byNumber := OpenByNumber(table.txns, accountRef, |table.txns|);
        if byNumber.Some? {
          return byNumber;
        }
      }
      if phone !in contacts {
        return None;
      }
      var open := OpenOf(table.txns, contacts[phone], |table.txns|);
      if open == [] {
        return None;
      }
      for k := 0 to |open|
        invariant FirstExact(table.txns, open[k..], amount) == FirstExact(table.txns, open, amount)
      {
        if Balance(table.txns[open[k]]) == amount {
          return Some(open[k]);
        }
        assert open[k..][1..] == open[k + 1..];
      }
      return Some(open[0]);
    }

    /** An existing payment with this reference on this transaction is returned as it is. */
    method ReconcilePayment(txn: nat, amount: int, ref: string) returns (r: Result<nat>)
      requires txn < |table.txns|
      modifies table
      ensures var was, existing := old(View()), PaymentOf(old(table.payments), txn, ref);
        if existing.Some? then r == Ok(existing.value) && View() == was
        else if amount <= 0 then r.Err? && View() == was
        else r == Ok(|was.payments|) && Ok(View()) == Recorded(was, txn, amount, Some(ref))
    {
      var existing := PaymentOf(table.payments, txn, ref);
      if existing.Some? {
        return Ok(existing.value);
      }
      r := table.RecordPayment(txn, amount, Some(ref));
    }

    method SendConfirmationSms(txn: nat, amount: int, ref: string)
      requires txn < |table.txns|
      modifies this`confirmations
      ensures View() == Confirmed(old(View()), txn, amount, ref)
    {
      if ConfirmationOf(confirmations, ref).Some? {
        return;
      }
      confirmations := confirmations + [Confirmation(ref, table.txns[txn].contact, amount, Balance(table.txns[txn]))];
    }

    /** Reconcile, link, confirm: shared by the webhook services, the Celery worker and the sweep. */
    method Credit(i: nat, txn: nat) returns (ok: bool)
      requires i < |receipts| && txn < |table.txns|
      modifies this, table
      ensures var credited := CreditReceipt(old(View()), i, txn);
        ok == credited.Ok? && View() == if ok then credited.value else old(View())
    {
      var paid := ReconcilePayment(txn, receipts[i].amount, receipts[i].ref);
      if paid.Err? {
        return false;
      }
      receipts := receipts[i := receipts[i].(payment := Some(paid.value))];
      receipts := receipts[i := receipts[i].(matched := Some(txn))];
      SendConfirmationSms(txn, receipts[i].amount, receipts[i].ref);
      return true;
    }

    /** The transaction named, or else the one the search selects. */
    method SelectTransaction(phone: string, amount: int, accountRef: string, explicit: Option<nat>)
      returns (txn: Option<nat>)
      ensures txn == if explicit.None? then FindMatch(table.txns, contacts, phone, amount, accountRef)
                     else if explicit.value < |table.txns| then explicit else None
    {
      if explicit.None? {
        txn := FindMatchingTransaction(phone, amount, accountRef);
      } else {
        txn := if explicit.value < |table.txns| then explicit else None;
      }
    }

    /** `match_incoming_payment` and, with a transaction id, `process_stk_callback`. */
    method Receive(ref: string, phone: string, amount: int, accountRef: string, source: Source, explicit: Option<nat>)
      modifies this, table
      ensures View() == Received(old(View()), ref, phone, amount, accountRef, source, explicit)
    {
      if ReceiptOf(receipts, ref).Some? {
        return;
      }
      var snapshot := receipts;
      receipts := receipts + [Receipt(ref, phone, amount, accountRef, source, None, None)];
      var txn := SelectTransaction(phone, amount, accountRef, explicit);
      if txn.Some? {
        var ok := Credit(|receipts| - 1, txn.value);
        if !ok {
          receipts := snapshot;
        }
      }
    }

    /** The Celery task for one stored receipt. */
    method ProcessPayment(i: nat)
      modifies this, table
      ensures View() == Processed(old(View()), i)
      ensures Consistent(old(View())) ==> CreditsMatch(old(View()), i, View())
    {
      if Consistent(View()) {
        ProcessedCreditsMatch(View(), i);
      }
      if i >= |receipts| || receipts[i].matched.Some? {
        return;
      }
      var txn := FindMatchingTransaction(receipts[i].phone, receipts[i].amount, receipts[i].accountRef);
      if txn.Some? {
        var _ := Credit(i, txn.value);
      }
    }

    /** The hourly sweep over unmatched receipts. */
    method PollUnmatched()
      modifies this, table
      ensures View() == SweepOver(old(View()), Unmatched(old(receipts)))
      ensures Consistent(old(View())) ==> forall j: nat :: NothingToMatch(View(), j)
    {
      if Consistent(View()) {
        SweepLeavesNothing(View());
      }
      ghost var start := View();
      var ids := Unmatched(receipts);
      var k := 0;
      while k < |ids|
        invariant 0 <= k <= |ids|
        invariant View() == SweepOver(start, ids[..k])
      {
        ProcessPayment(ids[k]);
        assert ids[..k + 1][..k] == ids[..k];
        k := k + 1;
      }
      assert ids[..k] == ids;
    }
  }
}
