/**
 M-Pesa jobs that overlap (workers/mpesa_reconciliation.py, domain/reconciliation_service.py): a job reads the receipt,
 selects a transaction and looks for an earlier payment without a lock, and commits later. When is it exactly once?
 */
module MpesaRaces {
  import opened Prelude
  import opened Ledger
  import M = Mpesa

  /** How far a job has got: it saw the receipt unmatched, selected a transaction, looked for its earlier payment. */
  datatype Job =
    | Saw(receipt: nat)
    | Chose(receipt: nat, txn: nat, row: Txn)
    | Checked(receipt: nat, txn: nat, row: Txn, existing: Option<nat>)

  datatype World = World(db: M.Db, open: map<nat, Job>)

  /**
   The search for the transaction is several statements; whatever they select is covered. A job whose confirmation
   meets the unique message key of another one, or that fails otherwise, is an `Abort`.
   */
  datatype Event =
    | See(job: nat, receipt: nat)
    | Choose(job: nat, txn: nat)
    | Check(job: nat)
    | Finish(job: nat)
    | Abort(job: nat)
    | Atomic(e: M.Event)        // notifications, payments and changes that nothing overlaps

  function Selected(db: M.Db, i: nat): Option<nat>
    requires i < |db.receipts|
  {
    var r := db.receipts[i];
    M.FindMatch(db.txns, db.contacts, r.phone, r.amount, r.accountRef)
  }

  predicate Enabled(w: World, e: Event) {
    match e
    case See(job, i) => job !in w.open && i < |w.db.receipts| && w.db.receipts[i].matched.None?
    case Choose(job, txn) => job in w.open && w.open[job].Saw? && txn < |w.db.txns|
    case Check(job) => job in w.open && w.open[job].Chose? && w.open[job].receipt < |w.db.receipts|
    case Finish(job) =>
      && job in w.open && w.open[job].Checked?
      && w.open[job].receipt < |w.db.receipts| && w.open[job].txn < |w.db.txns|
      // recording a non-positive amount raises
      && (w.open[job].existing.None? ==> w.db.receipts[w.open[job].receipt].amount > 0)
    case Abort(job) => job in w.open
    case Atomic(_) => true
  }

  /** What a job writes: payment, the row computed from what it read, link, and the confirmation if there is none. */
  function Committed(db: M.Db, job: Job): M.Db
    requires job.Checked? && job.receipt < |db.receipts| && job.txn < |db.txns|
  {
    var r := db.receipts[job.receipt];
    var t := if job.existing.Some? then job.row else Credited(job.row, r.amount);
    var pid := if job.existing.Some? then job.existing.value else |db.payments|;
    db.(txns := if job.existing.Some? then db.txns else db.txns[job.txn := t],
        payments := if job.existing.Some? then db.payments
                    else db.payments + [Payment(job.txn, r.amount, Some(r.ref))],
        receipts := db.receipts[job.receipt := r.(payment := Some(pid), matched := Some(job.txn))],
        confirmations := if M.ConfirmationOf(db.confirmations, r.ref).Some? then db.confirmations
                         else db.confirmations + [M.Confirmation(r.ref, t.contact, r.amount, Balance(t))])
  }

  function Step(w: World, e: Event): World
    requires Enabled(w, e)
  {
    match e
    case See(job, i) => w.(open := w.open[job := Saw(i)])
    case Choose(job, txn) => w.(open := w.open[job := Chose(w.open[job].receipt, txn, w.db.txns[txn])])
    case Check(job) =>
      var j := w.open[job];
      var existing := M.PaymentOf(w.db.payments, j.txn, w.db.receipts[j.receipt].ref);
      w.(open := w.open[job := Checked(j.receipt, j.txn, j.row, existing)])
    case Finish(job) => World(Committed(w.db, w.open[job]), w.open - {job})
    case Abort(job) => w.(open := w.open - {job})
    case Atomic(e) => w.(db := M.Step(w.db, e))
  }

  const EMPTY := World(M.EMPTY, map[])

  /** The worlds before, between and after the events of a run. */
  ghost predicate IsRun(ws: seq<World>, es: seq<Event>) {
    && |ws| == |es| + 1 && ws[0] == EMPTY
    && forall i :: 0 <= i < |es| ==> Enabled(ws[i], es[i]) && ws[i + 1] == Step(ws[i], es[i])
  }

  /** The job that commits had found an earlier payment, or its receipt is still unmatched, as it had seen. */
  predicate Safe(w: World, e: Event)
    requires Enabled(w, e)
  {
    e.Finish? ==> w.open[e.job].existing.Some? || w.db.receipts[w.open[e.job].receipt].matched.None?
  }

  ghost predicate AllSafe(ws: seq<World>, es: seq<Event>)
    requires IsRun(ws, es)
  {
    forall i :: 0 <= i < |es| ==> Safe(ws[i], es[i])
  }

  /** No receipt code occurs in two payments. */
  ghost predicate PaidOnce(payments: seq<Payment>) {
    forall p, q :: 0 <= p < q < |payments| && payments[p].reference.Some? ==>
                     payments[p].reference != payments[q].reference
  }

  // ---------------------------------------------------------------- safe commits keep the invariant

  /** What a job holds still exists; a payment it found is one of its receipt on its transaction. */
  predicate JobOk(db: M.Db, job: Job) {
    && job.receipt < |db.receipts|
    && (!job.Saw? ==> job.txn < |db.txns|)
    && (job.Checked? && job.existing.Some? ==>
          var p := job.existing.value;
          && p < |db.payments| && db.payments[p].txn == job.txn
          && db.payments[p].reference == Some(db.receipts[job.receipt].ref))
  }

  ghost predicate Good(w: World) {
    M.Consistent(w.db) && forall job | job in w.open :: JobOk(w.db, w.open[job])
  }

  /** A commit that pays an unmatched receipt is the atomic credit of the row the job had read. */
  lemma FreshCommitSettles(db: M.Db, job: Job)
    requires M.Consistent(db) && JobOk(db, job) && job.Checked? && job.existing.None?
    requires db.receipts[job.receipt].matched.None?
    ensures Committed(db, job) == M.Settled(db.(txns := db.txns[job.txn := job.row]), job.receipt, job.txn)
    ensures M.Consistent(Committed(db, job))
  {
    var read := db.(txns := db.txns[job.txn := job.row]);
    M.UnmatchedIsUnpaid(db, job.receipt);
    M.SameBooksStayConsistent(db, read);
    M.SettledIsConsistent(read, job.receipt, job.txn);
    assert Committed(db, job).txns == M.Settled(read, job.receipt, job.txn).txns;
  }

  /** A job that had found its payment leaves the database as it is. */
  lemma FoundCommitChangesNothing(db: M.Db, job: Job)
    requires M.Consistent(db) && JobOk(db, job) && job.Checked? && job.existing.Some?
    ensures Committed(db, job) == db
  {
    assert M.PaymentOk(db, job.existing.value) && M.ReceiptOk(db, job.receipt);
    assert db.receipts[job.receipt := db.receipts[job.receipt]] == db.receipts;
  }

  /** The check for an earlier payment finds one exactly if the receipt is by then matched to the transaction chosen. */
  lemma CheckFindsExactly(w: World, job: nat)
    requires Good(w) && Enabled(w, Check(job))
    ensures var j := w.open[job];
      Step(w, Check(job)).open[job].existing.Some? <==> w.db.receipts[j.receipt].matched == Some(j.txn)
  {
    var j := w.open[job];
    var existing := M.PaymentOf(w.db.payments, j.txn, w.db.receipts[j.receipt].ref);
    assert M.ReceiptOk(w.db, j.receipt);
    if existing.Some? {
      assert M.PaymentOk(w.db, existing.value);
    }
  }

  lemma SafeStepKeepsGood(w: World, e: Event)
    requires Good(w) && Enabled(w, e) && Safe(w, e)
    ensures Good(Step(w, e))
  {
    var w' := Step(w, e);
    match e {
      case Finish(job) =>
        if w.open[job].existing.Some? {
          FoundCommitChangesNothing(w.db, w.open[job]);
        } else {
          FreshCommitSettles(w.db, w.open[job]);
        }
      case Atomic(e) => M.StepIsConsistent(w.db, e);
      case _ =>
    }
    if e.Finish? || e.Atomic? {
      forall job | job in w'.open ensures JobOk(w'.db, w'.open[job]) {
      }
    }
  }

  lemma {:induction false} SafeRunIsGood(ws: seq<World>, es: seq<Event>, n: nat)
    requires IsRun(ws, es) && n <= |es| && forall i :: 0 <= i < n ==> Safe(ws[i], es[i])
    ensures Good(ws[n])
  {
    if n > 0 {
      SafeRunIsGood(ws, es, n - 1);
      SafeStepKeepsGood(ws[n - 1], es[n - 1]);
    }
  }

  // ---------------------------------------------------------------- other commits pay twice, for good

  lemma {:induction false} SweepPaymentsGrow(db: M.Db, ids: seq<nat>)
    ensures db.payments <= M.SweepOver(db, ids).payments
  {
    if ids != [] {
      SweepPaymentsGrow(db, ids[..|ids| - 1]);
    }
  }

  lemma AtomicPaymentsGrow(db: M.Db, e: M.Event)
    ensures db.payments <= M.Step(db, e).payments
  {
    match e {
      case Sweep => SweepPaymentsGrow(db, M.Unmatched(db.receipts));
      case _ =>
    }
  }

  lemma PaymentsGrow(w: World, e: Event)
    requires Enabled(w, e)
    ensures w.db.payments <= Step(w, e).db.payments
  {
    if e.Atomic? {
      AtomicPaymentsGrow(w.db, e.e);
    }
  }

  lemma UnsafeCommitPaysTwice(w: World, job: nat)
    requires Good(w) && Enabled(w, Finish(job)) && !Safe(w, Finish(job))
    ensures !PaidOnce(Step(w, Finish(job)).db.payments)
  {
    var j, after := w.open[job], Step(w, Finish(job)).db.payments;
    assert M.ReceiptOk(w.db, j.receipt);
    var p, q := w.db.receipts[j.receipt].payment.value, |w.db.payments|;
    assert after[p] == w.db.payments[p] && after[p].reference == after[q].reference;
  }

  lemma {:induction false} PaymentsStay(ws: seq<World>, es: seq<Event>, k: nat, n: nat)
    requires IsRun(ws, es) && k <= n <= |es|
    ensures ws[k].db.payments <= ws[n].db.payments
    decreases n
  {
    if k < n {
      PaymentsStay(ws, es, k, n - 1);
      PaymentsGrow(ws[n - 1], es[n - 1]);
    }
  }

  lemma {:induction false} FirstUnsafe(ws: seq<World>, es: seq<Event>, i: nat) returns (k: nat)
    requires IsRun(ws, es) && i < |es| && !Safe(ws[i], es[i])
    ensures k <= i && !Safe(ws[k], es[k]) && forall j :: 0 <= j < k ==> Safe(ws[j], es[j])
  {
    if j: nat :| j < i && !Safe(ws[j], es[j]) {
      k := FirstUnsafe(ws, es, j);
    } else {
      k := i;
    }
  }

  /** From an unsafe commit on, some receipt is paid twice. */
  lemma UnsafeRunPaysTwice(ws: seq<World>, es: seq<Event>, i: nat)
    requires IsRun(ws, es) && i < |es| && !Safe(ws[i], es[i])
    ensures !PaidOnce(ws[|es|].db.payments)
  {
    var k := FirstUnsafe(ws, es, i);
    SafeRunIsGood(ws, es, k);
    UnsafeCommitPaysTwice(ws[k], es[k].job);
    PaymentsStay(ws, es, k + 1, |es|);
  }

  /**
   Exactly once, exactly: in every interleaving of the jobs' statements with each other and with everything else, no
   receipt is paid twice if and only if every job that commits had found an earlier payment, or commits while its
   receipt is still unmatched. Then all the rest holds as well.
   */
  lemma ExactlyOnceExactly(ws: seq<World>, es: seq<Event>)
    requires IsRun(ws, es)
    ensures PaidOnce(ws[|es|].db.payments) <==> AllSafe(ws, es)
    ensures AllSafe(ws, es) ==>
              var db := ws[|es|].db;
              && M.CodesUnique(db)
              && (forall i: nat | i < |db.receipts| :: M.CreditedOnce(db, db.receipts[i]))
              && M.MpesaTotal(db.payments) == M.MatchedTotal(db.receipts)
  {
    if AllSafe(ws, es) {
      var db := ws[|es|].db;
      SafeRunIsGood(ws, es, |es|);
      M.ConsistentCodesUnique(db);
      forall i: nat | i < |db.receipts| ensures M.CreditedOnce(db, db.receipts[i]) {
        M.ConsistentCreditedOnce(db, i);
      }
    } else {
      var i: nat :| i < |es| && !Safe(ws[i], es[i]);
      UnsafeRunPaysTwice(ws, es, i);
    }
  }

  // ---------------------------------------------------------------- two jobs for one receipt

  /** A job has seen the receipt, selected its transaction, and is about to look for a payment. */
  predicate Ready(w: World, job: nat, i: nat) {
    job in w.open && w.open[job].Chose? && w.open[job].receipt == i
  }

  /**
   Two jobs have selected a transaction for the same unmatched receipt. When both look for a payment before either
   commits, both commits go through and the receipt is paid twice, whatever they selected.
   */
  lemma TwoJobsPayTwice(w: World, a: nat, b: nat, i: nat)
    requires Good(w) && a != b && Ready(w, a, i) && Ready(w, b, i)
    requires w.db.receipts[i].matched.None? && w.db.receipts[i].amount > 0
    ensures Enabled(w, Check(a)) && var w1 := Step(w, Check(a));
      Enabled(w1, Check(b)) && var w2 := Step(w1, Check(b));
      Enabled(w2, Finish(a)) && var w3 := Step(w2, Finish(a));
      Enabled(w3, Finish(b)) && !PaidOnce(Step(w3, Finish(b)).db.payments)
  {
    var w1 := Step(w, Check(a));
    CheckFindsExactly(w, a);
    SafeStepKeepsGood(w, Check(a));
    var w2 := Step(w1, Check(b));
    CheckFindsExactly(w1, b);
    SafeStepKeepsGood(w1, Check(b));
    var w3 := Step(w2, Finish(a));
    SafeStepKeepsGood(w2, Finish(a));
    UnsafeCommitPaysTwice(w3, b);
  }

  /**
   When the second looks only after the first has committed, it pays again if and only if it selected another
   transaction.
   */
  lemma LateCheckPaysTwiceExactly(w: World, a: nat, b: nat, i: nat)
    requires Good(w) && a != b && Ready(w, a, i) && Ready(w, b, i)
    requires w.db.receipts[i].matched.None? && w.db.receipts[i].amount > 0
    ensures Enabled(w, Check(a)) && var w1 := Step(w, Check(a));
      Enabled(w1, Finish(a)) && var w2 := Step(w1, Finish(a));
      Enabled(w2, Check(b)) && var w3 := Step(w2, Check(b));
      Enabled(w3, Finish(b)) && var end := Step(w3, Finish(b)).db;
      && (PaidOnce(end.payments) <==> w.open[a].txn == w.open[b].txn)
      && (w.open[a].txn == w.open[b].txn ==> end == w2.db)
  {
    var w1 := Step(w, Check(a));
    CheckFindsExactly(w, a);
    SafeStepKeepsGood(w, Check(a));
    var w2 := Step(w1, Finish(a));
    SafeStepKeepsGood(w1, Finish(a));
    var w3 := Step(w2, Check(b));
    CheckFindsExactly(w2, b);
    SafeStepKeepsGood(w2, Check(b));
    if w.open[a].txn == w.open[b].txn {
      FoundCommitChangesNothing(w3.db, w3.open[b]);
      M.ConsistentCodesUnique(w3.db);
    } else {
      UnsafeCommitPaysTwice(w3, b);
    }
  }

  /** The run `es` ends in `w`. */
  ghost predicate Upto(ws: seq<World>, es: seq<Event>, w: World) {
    IsRun(ws, es) && ws[|es|] == w
  }

  lemma Extend(ws: seq<World>, es: seq<Event>, w: World, e: Event, w': World)
    requires Upto(ws, es, w) && Enabled(w, e) && w' == Step(w, e)
    ensures Upto(ws + [w'], es + [e], w')
  {
    var worlds, events := ws + [w'], es + [e];
    forall i | 0 <= i < |events| ensures Enabled(worlds[i], events[i]) && worlds[i + 1] == Step(worlds[i], events[i]) {
      if i < |es| {
        assert worlds[i] == ws[i] && worlds[i + 1] == ws[i + 1] && events[i] == es[i];
      }
    }
  }

  lemma BothGetReady(ws: seq<World>, es: seq<Event>, w: World, a: nat, b: nat, i: nat)
    returns (ws': seq<World>, es': seq<Event>, w': World)
    requires Upto(ws, es, w) && Good(w) && a != b && Enabled(w, See(a, i)) && Enabled(w, See(b, i))
    requires Selected(w.db, i).Some?
    ensures Upto(ws', es', w') && ws <= ws' && es <= es'
    ensures Good(w') && w'.db == w.db && Ready(w', a, i) && Ready(w', b, i)
  {
    var txn, w1 := Selected(w.db, i).value, Step(w, See(a, i));
    var w2 := Step(w1, See(b, i));
    var w3 := Step(w2, Choose(a, txn));
    w' := Step(w3, Choose(b, txn));
    Extend(ws, es, w, See(a, i), w1);
    Extend(ws + [w1], es + [See(a, i)], w1, See(b, i), w2);
    ws', es' := ws + [w1] + [w2], es + [See(a, i)] + [See(b, i)];
    Extend(ws', es', w2, Choose(a, txn), w3);
    Extend(ws' + [w3], es' + [Choose(a, txn)], w3, Choose(b, txn), w');
    ws', es' := ws' + [w3] + [w'], es' + [Choose(a, txn)] + [Choose(b, txn)];
  }

  lemma BothPay(ws: seq<World>, es: seq<Event>, w: World, a: nat, b: nat, i: nat)
    returns (ws': seq<World>, es': seq<Event>, w': World)
    requires Upto(ws, es, w) && Good(w) && a != b && Ready(w, a, i) && Ready(w, b, i)
    requires w.db.receipts[i].matched.None? && w.db.receipts[i].amount > 0
    ensures Upto(ws', es', w') && ws <= ws' && es <= es' && !PaidOnce(w'.db.payments)
  {
    TwoJobsPayTwice(w, a, b, i);
    var w1 := Step(w, Check(a));
    var w2 := Step(w1, Check(b));
    var w3 := Step(w2, Finish(a));
    w' := Step(w3, Finish(b));
    Extend(ws, es, w, Check(a), w1);
    Extend(ws + [w1], es + [Check(a)], w1, Check(b), w2);
    ws', es' := ws + [w1] + [w2], es + [Check(a)] + [Check(b)];
    Extend(ws', es', w2, Finish(a), w3);
    Extend(ws' + [w3], es' + [Finish(a)], w3, Finish(b), w');
    ws', es' := ws' + [w3] + [w'], es' + [Finish(a)] + [Finish(b)];
  }

  /** Every safe run in which some transaction matches an unmatched receipt goes on to one that pays it twice. */
  lemma OverlapPaysTwice(ws: seq<World>, es: seq<Event>, i: nat) returns (ws': seq<World>, es': seq<Event>)
    requires IsRun(ws, es) && AllSafe(ws, es)
    requires var db := ws[|es|].db;
      i < |db.receipts| && db.receipts[i].matched.None? && db.receipts[i].amount > 0 && Selected(db, i).Some?
    ensures ws <= ws' && es <= es' && IsRun(ws', es') && !PaidOnce(ws'[|es'|].db.payments)
  {
    var a := NumberAbove(ws[|es|].open.Keys);
    SafeRunIsGood(ws, es, |es|);
    var ready, events, w := BothGetReady(ws, es, ws[|es|], a, a + 1, i);
    var end;
    ws', es', end := BothPay(ready, events, w, a, a + 1, i);
  }

  // ---------------------------------------------------------------- the balance shown

  /**
   A fresh commit writes the amount it computed from the row it had read. The books still balance if and only if that is
   the amount the current row would have given: nothing was paid in between, or the transaction is settled either way.
   */
  lemma FreshCommitBalancesExactly(db: M.Db, job: Job)
    requires M.Consistent(db) && M.Balanced(db) && job.Checked? && job.existing.None?
    requires job.receipt < |db.receipts| && job.txn < |db.txns|
    requires db.receipts[job.receipt].matched.None? && db.receipts[job.receipt].amount > 0
    requires job.row.amountDue == db.txns[job.txn].amountDue && job.row.amountPaid >= 0
    ensures var due, amount := job.row.amountDue, db.receipts[job.receipt].amount;
      M.Balanced(Committed(db, job))
      <==> Min(due, job.row.amountPaid + amount) == Min(due, db.txns[job.txn].amountPaid + amount)
  {
    var db', amount := Committed(db, job), db.receipts[job.receipt].amount;
    assert db'.payments[..|db.payments|] == db.payments;
    assert M.TxnBalanced(db, job.txn);
    assert M.PaidOn(db'.payments, job.txn) == M.PaidOn(db.payments, job.txn) + amount;
    assert db'.txns[job.txn] == Credited(job.row, amount);
    var due := job.row.amountDue;
    if Min(due, job.row.amountPaid + amount) == Min(due, db.txns[job.txn].amountPaid + amount) {
      forall t: nat | t < |db'.txns| ensures M.TxnBalanced(db', t) {
        assert M.TxnBalanced(db, t);
      }
    } else {
      assert !M.TxnBalanced(db', job.txn);
    }
  }
}
