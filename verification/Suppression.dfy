/**
 Payments and the outbox together (workers/mpesa_reconciliation.py, workers/reminders.py): which payments silence the
 pending reminders of a transaction, exactly, and whose reminders they must leave alone.
 */
module Suppression {
  import opened Prelude
  import Outbox
  import L = Ledger
  import P = OutboxProtocol
  import O = Oversending

  /** Outbox rows as stored, the ledger they belong to, and what each scheduler run under way has read as open. */
  datatype System = System(outbox: P.State, txns: seq<L.Txn>, readers: map<nat, set<nat>>)

  datatype Event =
    | OutboxEvent(e: P.Event)                       // send workers, reconciler passes, callbacks, other inserts
    | SchedulerRead(run: nat, ids: set<nat>)        // the daily scheduler loads open transactions
    | Schedule(run: nat, txn: nat, row: Outbox.Row) // and later inserts their reminders
    | SchedulerEnd(run: nat)
    | Pay(txn: nat, amount: int)                    // a payment recorded without suppression
    | Move(txn: nat, to: L.TxnStatus)
    | NewTxn(t: L.Txn)
    | MpesaPayment(txn: nat, amount: int, now: int) // the M-Pesa worker: credit, and suppress if now PAID

  predicate PendingFor(row: Outbox.Row, txn: nat) {
    row.status.Pending? && row.transaction == Some(txn)
  }

  /** The outbox table with the pending rows of one transaction suppressed. */
  function SuppressRows(rows: seq<Outbox.Row>, txn: nat, now: int): seq<Outbox.Row> {
    seq(|rows|, i requires 0 <= i < |rows| =>
      if PendingFor(rows[i], txn) then rows[i].(status := Outbox.Suppressed, updatedAt := now) else rows[i])
  }

  /** On the columns: a PENDING row of the transaction becomes SUPPRESSED, any other row is as it was. */
  predicate SuppressedOnly(was: Outbox.Row, row: Outbox.Row, txn: nat, now: int) {
    if was.status == Outbox.Pending && was.transaction == Some(txn) then
      row == was.(status := Outbox.Suppressed, updatedAt := now)
    else row == was
  }

  /** The suppression loop of the worker. */
  method SuppressPending(table: Outbox.OutboxTable, txn: nat, now: int)
    modifies table
    ensures table.rows == SuppressRows(old(table.rows), txn, now)
    ensures |table.rows| == |old(table.rows)|
    ensures forall i :: 0 <= i < |table.rows| ==> SuppressedOnly(old(table.rows)[i], table.rows[i], txn, now)
  {
    var i := 0;
    ghost var start := table.rows;
    while i < |table.rows|
      invariant 0 <= i <= |table.rows| == |start|
      invariant table.rows[..i] == SuppressRows(start, txn, now)[..i]
      invariant table.rows[i..] == start[i..]
    {
      assert table.rows[i] == start[i];
      if PendingFor(table.rows[i], txn) {
        table.rows := table.rows[i := table.rows[i].(status := Outbox.Suppressed, updatedAt := now)];
      }
      i := i + 1;
    }
  }

  /** The row set of an outbox state replaced, histories kept. */
  function WithRows(s: P.State, rows: seq<Outbox.Row>): P.State
    requires |rows| == |s.cells|
  {
    s.(cells := seq(|s.cells|, i requires 0 <= i < |s.cells| => s.cells[i].(row := rows[i])))
  }

  predicate Enabled(s: System, e: Event) {
    match e
    case OutboxEvent(e) => P.Enabled(s.outbox, e) && (e.Insert? ==> e.row.transaction.None?)
    case SchedulerRead(_, ids) => forall t | t in ids :: t < |s.txns| && L.Schedulable(s.txns[t])
    case Schedule(run, txn, row) =>
      run in s.readers && txn in s.readers[run] && row.transaction == Some(txn) && P.Enabled(s.outbox, P.Insert(row))
    case SchedulerEnd(run) => run in s.readers
    case Pay(txn, amount) => txn < |s.txns| && amount > 0
    case Move(txn, to) => txn < |s.txns| && L.Moved(s.txns[txn], to).Ok?
    case NewTxn(t) => L.Sound(t)
    case MpesaPayment(txn, amount, _) =>
      && txn < |s.txns| && amount > 0
      // the UPDATE of a locked row waits until its worker has finished
      && (L.Credited(s.txns[txn], amount).status.Paid? ==>
            forall id: nat | id < |s.outbox.cells| && PendingFor(s.outbox.cells[id].row, txn) :: P.Free(s.outbox, id))
  }

  function Step(s: System, e: Event): System
    requires Enabled(s, e)
  {
    match e
    case OutboxEvent(e) => s.(outbox := P.Step(s.outbox, e))
    case SchedulerRead(run, ids) => s.(readers := s.readers[run := ids])
    case Schedule(_, _, row) => s.(outbox := P.Step(s.outbox, P.Insert(row)))
    case SchedulerEnd(run) => s.(readers := s.readers - {run})
    case Pay(txn, amount) => s.(txns := s.txns[txn := L.Credited(s.txns[txn], amount)])
    case Move(txn, to) => s.(txns := s.txns[txn := L.Moved(s.txns[txn], to).value])
    case NewTxn(t) => s.(txns := s.txns + [t])
    case MpesaPayment(txn, amount, now) =>
      var t := L.Credited(s.txns[txn], amount);
      s.(outbox := if t.status.Paid? then WithRows(s.outbox, SuppressRows(P.Rows(s.outbox), txn, now)) else s.outbox,
         txns := s.txns[txn := t])
  }

  predicate Runs(s: System, es: seq<Event>)
    decreases es
  {
    es == [] || (Enabled(s, es[0]) && Runs(Step(s, es[0]), es[1..]))
  }

  function After(s: System, es: seq<Event>): System
    requires Runs(s, es)
    decreases es
  {
    if es == [] then s else After(Step(s, es[0]), es[1..])
  }

  /** Reconciler passes do not overlap. */
  predicate SerialRun(s: System, es: seq<Event>)
    requires Runs(s, es)
    decreases es
  {
    es == [] || ((es[0].OutboxEvent? ==> P.Serial(s.outbox, es[0].e)) && SerialRun(Step(s, es[0]), es[1..]))
  }

  const EMPTY := System(P.EMPTY, [], map[])

  ghost predicate Good(s: System) {
    P.Inv(s.outbox) && P.Current(s.outbox) && forall t: nat | t < |s.txns| :: L.Sound(s.txns[t])
  }

  // ---------------------------------------------------------------- every reachable state is good

  lemma SuppressionKeepsGood(s: P.State, txn: nat, now: int)
    requires P.Inv(s) && P.Current(s)
    requires forall id: nat | id < |s.cells| && PendingFor(s.cells[id].row, txn) :: P.Free(s, id)
    ensures var s' := WithRows(s, SuppressRows(P.Rows(s), txn, now)); P.Inv(s') && P.Current(s')
  {
  }

  lemma StepKeepsGood(s: System, e: Event)
    requires Good(s) && Enabled(s, e) && (e.OutboxEvent? ==> P.Serial(s.outbox, e.e))
    ensures Good(Step(s, e))
  {
    match e {
      case OutboxEvent(e) =>
        P.StepKeepsCurrent(s.outbox, e);
        P.StepKeepsInv(s.outbox, e);
      case Schedule(_, _, row) =>
        P.StepKeepsCurrent(s.outbox, P.Insert(row));
        P.StepKeepsInv(s.outbox, P.Insert(row));
      case Pay(txn, amount) => L.OpKeepsSound(s.txns[txn], L.Pay(amount));
      case Move(txn, to) => L.OpKeepsSound(s.txns[txn], L.Move(to));
      case MpesaPayment(txn, amount, now) =>
        L.OpKeepsSound(s.txns[txn], L.Pay(amount));
        if L.Credited(s.txns[txn], amount).status.Paid? {
          SuppressionKeepsGood(s.outbox, txn, now);
        }
      case _ =>
    }
  }

  lemma {:induction false} RunKeepsGood(s: System, es: seq<Event>)
    requires Good(s) && Runs(s, es) && SerialRun(s, es)
    ensures Good(After(s, es))
    decreases es
  {
    if es != [] {
      StepKeepsGood(s, es[0]);
      RunKeepsGood(Step(s, es[0]), es[1..]);
    }
  }

  // ---------------------------------------------------------------- rows that can no longer be sent

  predicate Finished(status: Outbox.Status) {
    status.Suppressed? || status.Sent? || status.Delivered? || status.Failed?
  }

  /** No poll ever returns a PENDING row like this one: it was never scheduled, or its retry budget is used up. */
  predicate Stuck(row: Outbox.Row) {
    row.scheduledAt.None? || row.retryCount >= row.maxRetries
  }

  /** No reconciler pass still holds a read of the row from which it could make it pending with retry budget left. */
  ghost predicate NoLateRetry(s: P.State, id: nat)
    requires id < |s.cells|
  {
    var row := s.cells[id].row;
    forall p | p in s.seen && id in s.seen[p] :: row.scheduledAt.None? || s.seen[p][id].retryCount + 1 >= row.maxRetries
  }

  /** Finished or stuck, not locked, and no late write can bring it back. */
  ghost predicate Frozen(s: P.State, id: nat) {
    && id < |s.cells|
    && (Finished(s.cells[id].row.status) || (s.cells[id].row.status.Pending? && Stuck(s.cells[id].row)))
    && P.Free(s, id)
    && NoLateRetry(s, id)
  }

  lemma OutboxStepKeepsFrozen(s: P.State, e: P.Event, id: nat)
    requires P.Enabled(s, e) && Frozen(s, id)
    ensures Frozen(P.Step(s, e), id) && P.Step(s, e).cells[id].sends == s.cells[id].sends
  {
    var s' := P.Step(s, e);
    match e {
      case Treat(w, x, o, now) =>
        assert w in s.open && x in s.open[w].view && x != id;
        P.TreatedFrame(s, w, x, Outbox.Attempt(s.open[w].view[x], o, now),
                       s.open[w].view[x].status.Pending? && Outbox.CallsProvider(o));
        TreatedKeepsFree(s, w, x, Outbox.Attempt(s.open[w].view[x], o, now),
                         s.open[w].view[x].status.Pending? && Outbox.CallsProvider(o), id);
      case Commit(w) =>
        assert id !in s.open[w].view;
      case Rollback(w) =>
        assert id !in s.open[w].view;
      case _ =>
    }
  }

  lemma TreatedKeepsFree(s: P.State, w: nat, x: nat, row: Outbox.Row, calls: bool, id: nat)
    requires w in s.open && x < |s.cells| && x in s.open[w].view && P.Free(s, id) && id < |s.cells|
    ensures P.Free(P.Treated(s, w, x, row, calls), id)
    ensures P.Treated(s, w, x, row, calls).cells[id].sends == s.cells[id].sends
  {
  }

  lemma StepKeepsFrozen(s: System, e: Event, id: nat)
    requires Enabled(s, e) && Frozen(s.outbox, id)
    ensures Frozen(Step(s, e).outbox, id) && Step(s, e).outbox.cells[id].sends == s.outbox.cells[id].sends
  {
    match e {
      case OutboxEvent(e) => OutboxStepKeepsFrozen(s.outbox, e, id);
      case Schedule(_, _, row) => OutboxStepKeepsFrozen(s.outbox, P.Insert(row), id);
      case MpesaPayment(txn, amount, now) =>
        assert P.Rows(s.outbox)[id] == s.outbox.cells[id].row;
      case _ =>
    }
  }

  lemma {:induction false} FrozenStaysUnsent(s: System, es: seq<Event>, id: nat)
    requires Runs(s, es) && Frozen(s.outbox, id)
    ensures id < |After(s, es).outbox.cells| && After(s, es).outbox.cells[id].sends == s.outbox.cells[id].sends
    decreases es
  {
    if es != [] {
      StepKeepsFrozen(s, es[0], id);
      FrozenStaysUnsent(Step(s, es[0]), es[1..], id);
    }
  }

  // ---------------------------------------------------------------- a settled transaction is never scheduled

  ghost predicate Books(s: System) {
    forall t: nat | t < |s.txns| :: L.Sound(s.txns[t])
  }

  lemma StepKeepsBooks(s: System, e: Event)
    requires Books(s) && Enabled(s, e)
    ensures Books(Step(s, e)) && |s.txns| <= |Step(s, e).txns|
    ensures forall t: nat | t < |s.txns| && s.txns[t].status.Paid? :: Step(s, e).txns[t].status.Paid?
  {
    match e {
      case Pay(txn, amount) => L.OpKeepsSound(s.txns[txn], L.Pay(amount));
      case Move(txn, to) => L.OpKeepsSound(s.txns[txn], L.Move(to));
      case MpesaPayment(txn, amount, _) => L.OpKeepsSound(s.txns[txn], L.Pay(amount));
      case _ =>
    }
  }

  lemma {:induction false} RunKeepsBooks(s: System, es: seq<Event>)
    requires Books(s) && Runs(s, es)
    ensures Books(After(s, es))
    decreases es
  {
    if es != [] {
      StepKeepsBooks(s, es[0]);
      RunKeepsBooks(Step(s, es[0]), es[1..]);
    }
  }

  /** No scheduler run under way has read the transaction as open. */
  ghost predicate NoReader(s: System, txn: nat) {
    forall run | run in s.readers :: txn !in s.readers[run]
  }

  lemma {:induction false} PaidIsNeverScheduled(s: System, es: seq<Event>, txn: nat)
    requires Books(s) && Runs(s, es) && txn < |s.txns| && s.txns[txn].status.Paid? && NoReader(s, txn)
    ensures forall i :: 0 <= i < |es| && es[i].Schedule? ==> es[i].txn != txn
    decreases es
  {
    if es != [] {
      StepKeepsBooks(s, es[0]);
      assert NoReader(Step(s, es[0]), txn);
      PaidIsNeverScheduled(Step(s, es[0]), es[1..], txn);
      forall i | 0 <= i < |es| && es[i].Schedule? ensures es[i].txn != txn {
        if i > 0 {
          assert es[i] == es[1..][i - 1];
        }
      }
    }
  }

  /** Some run from `s` schedules a reminder of the transaction. */
  ghost predicate CanBeScheduled(s: System, txn: nat) {
    exists es: seq<Event>, i: int :: Runs(s, es) && 0 <= i < |es| && es[i].Schedule? && es[i].txn == txn
  }

  /** A paid transaction gets another reminder exactly if a scheduler run under way had read it while it was open. */
  lemma PaidIsScheduledExactly(s: System, txn: nat)
    requires Books(s) && txn < |s.txns| && s.txns[txn].status.Paid?
    ensures CanBeScheduled(s, txn) <==> !NoReader(s, txn)
  {
    if NoReader(s, txn) {
      forall es: seq<Event>, i: int | Runs(s, es) && 0 <= i < |es| && es[i].Schedule? ensures es[i].txn != txn {
        PaidIsNeverScheduled(s, es, txn);
      }
    } else {
      var run :| run in s.readers && txn in s.readers[run];
      var e := Schedule(run, txn, O.SampleRow(3).(transaction := Some(txn)));
      assert Runs(Step(s, e), []) && [e][1..] == [];
      assert Runs(s, [e]) && [e][0] == e;
    }
  }

  // ---------------------------------------------------------------- which settlements silence reminders

  /** A step that leaves the transaction PAID: a payment recorded somewhere, a status change, the M-Pesa worker. */
  predicate Settles(s: System, e: Event, txn: nat)
    requires Enabled(s, e)
  {
    (e.Pay? || e.Move? || e.MpesaPayment?) && e.txn == txn && Step(s, e).txns[txn].status.Paid?
  }

  /** A settling step suppresses the pending reminders of the transaction exactly if the M-Pesa worker took it. */
  lemma OnlyTheWorkerSuppresses(s: System, e: Event, txn: nat, id: nat)
    requires Enabled(s, e) && Settles(s, e, txn)
    requires id < |s.outbox.cells| && PendingFor(s.outbox.cells[id].row, txn)
    ensures |Step(s, e).outbox.cells| == |s.outbox.cells|
    ensures Step(s, e).outbox.cells[id].row.status.Suppressed? <==> e.MpesaPayment?
  {
  }

  /** In every run from `s` the row keeps its number of sends. */
  ghost predicate SilentFrom(s: System, id: nat) {
    forall es | Runs(s, es) ::
      id < |s.outbox.cells| && id < |After(s, es).outbox.cells|
      && After(s, es).outbox.cells[id].sends == s.outbox.cells[id].sends
  }

  lemma FrozenIsSilent(s: System, id: nat)
    requires Frozen(s.outbox, id)
    ensures SilentFrom(s, id)
  {
    forall es | Runs(s, es)
      ensures id < |s.outbox.cells| && id < |After(s, es).outbox.cells|
              && After(s, es).outbox.cells[id].sends == s.outbox.cells[id].sends
    {
      FrozenStaysUnsent(s, es, id);
    }
  }

  /** A pending row that a poll returns is handed to the provider two steps later. */
  lemma PollableIsSent(s: System, id: nat, now: int) returns (es: seq<Event>)
    requires id < |s.outbox.cells| && P.Free(s.outbox, id) && Outbox.Pollable(s.outbox.cells[id].row, now)
    ensures Runs(s, es) && |After(s, es).outbox.cells| == |s.outbox.cells|
    ensures After(s, es).outbox.cells[id].sends == s.outbox.cells[id].sends + 1
  {
    var w := NumberAbove(s.outbox.open.Keys);
    var poll, treat := OutboxEvent(P.Poll(w, {id}, now)), OutboxEvent(P.Treat(w, id, Outbox.Refused, now));
    es := [poll, treat];
    assert es[1..] == [treat] && [treat][1..] == [];
    var s1 := Step(s, poll);
    var s2 := Step(s1, treat);
    assert Runs(s2, []) && After(s2, []) == s2;
    assert Runs(s1, [treat]) && After(s1, [treat]) == s2;
  }

  /** A late `not_found` write that leaves retry budget makes any free scheduled row pending, and it is sent. */
  lemma LateRetryIsSent(s: System, id: nat) returns (es: seq<Event>)
    requires id < |s.outbox.cells| && P.Free(s.outbox, id) && !NoLateRetry(s.outbox, id)
    ensures Runs(s, es) && id < |After(s, es).outbox.cells|
    ensures After(s, es).outbox.cells[id].sends == s.outbox.cells[id].sends + 1
  {
    var row := s.outbox.cells[id].row;
    var p :| p in s.outbox.seen && id in s.outbox.seen[p]
             && row.scheduledAt.Some? && s.outbox.seen[p][id].retryCount + 1 < row.maxRetries;
    var write := OutboxEvent(P.PassWrite(p, id, Outbox.NotFound, row.scheduledAt.value));
    var more := PollableIsSent(Step(s, write), id, row.scheduledAt.value);
    es := [write] + more;
    assert es[1..] == more;
  }

  /** What a settling step leaves of a pending row that nobody holds. */
  lemma SettlementKeepsRow(s: System, e: Event, txn: nat, id: nat)
    requires Enabled(s, e) && Settles(s, e, txn)
    requires id < |s.outbox.cells| && PendingFor(s.outbox.cells[id].row, txn) && P.Free(s.outbox, id)
    ensures var s', row := Step(s, e), s.outbox.cells[id].row;
      && id < |s'.outbox.cells| && P.Free(s'.outbox, id) && s'.outbox.seen == s.outbox.seen
      && s'.outbox.cells[id].sends == s.outbox.cells[id].sends
      && (if e.MpesaPayment? then s'.outbox.cells[id].row == row.(status := Outbox.Suppressed, updatedAt := e.now)
          else s'.outbox.cells[id].row == row)
  {
  }

  /**
   The worker's payment silences nobody else: every row that is not PENDING or belongs to another transaction, or to
   none, is as it was, and so is every provider call; only a payment that leaves the transaction PAID suppresses.
   */
  lemma OthersAreNotSilenced(s: System, txn: nat, amount: int, now: int)
    requires Books(s) && Enabled(s, MpesaPayment(txn, amount, now))
    ensures var s', t := Step(s, MpesaPayment(txn, amount, now)), s.txns[txn];
      && |s'.outbox.cells| == |s.outbox.cells| && s'.outbox.open == s.outbox.open && s'.outbox.seen == s.outbox.seen
      && forall id: nat | id < |s.outbox.cells| ::
           var was, cell := s.outbox.cells[id], s'.outbox.cells[id];
           && cell.sends == was.sends && cell.aborts == was.aborts
           && (if t.amountPaid + amount >= t.amountDue then SuppressedOnly(was.row, cell.row, txn, now)
               else cell.row == was.row)
  {
    forall id: nat | id < |s.outbox.cells| ensures P.Rows(s.outbox)[id] == s.outbox.cells[id].row {
    }
  }

  /** So a reminder of another transaction that a poll would return can still be sent after it. */
  lemma OthersCanStillBeSent(s: System, txn: nat, amount: int, now: int, id: nat, at: int) returns (es: seq<Event>)
    requires Books(s) && Enabled(s, MpesaPayment(txn, amount, now))
    requires id < |s.outbox.cells| && P.Free(s.outbox, id)
    requires s.outbox.cells[id].row.transaction != Some(txn) && Outbox.Pollable(s.outbox.cells[id].row, at)
    ensures var s' := Step(s, MpesaPayment(txn, amount, now));
      && Runs(s', es) && id < |After(s', es).outbox.cells|
      && After(s', es).outbox.cells[id].sends == s.outbox.cells[id].sends + 1
  {
    OthersAreNotSilenced(s, txn, amount, now);
    es := PollableIsSent(Step(s, MpesaPayment(txn, amount, now)), id, at);
  }

  /**
   Which settlements silence a pending reminder that no worker holds: from any state, whatever settling step is taken
   and whatever follows, the reminder is never sent again if and only if the M-Pesa worker took that step, or the row
   could never be polled anyway, and no reconciler pass still holds a read from which it could retry the row.
   */
  lemma SilenceNeedsTheWorker(s: System, e: Event, txn: nat, id: nat)
    requires Enabled(s, e) && Settles(s, e, txn)
    requires id < |s.outbox.cells| && PendingFor(s.outbox.cells[id].row, txn) && P.Free(s.outbox, id)
    ensures SilentFrom(Step(s, e), id)
            <==> (e.MpesaPayment? || Stuck(s.outbox.cells[id].row)) && NoLateRetry(s.outbox, id)
  {
    var s', row := Step(s, e), s.outbox.cells[id].row;
    SettlementKeepsRow(s, e, txn, id);
    if !NoLateRetry(s.outbox, id) {
      var es := LateRetryIsSent(s', id);
    } else if e.MpesaPayment? || Stuck(row) {
      FrozenIsSilent(s', id);
    } else {
      var es := PollableIsSent(s', id, row.scheduledAt.value);
    }
  }

  /**
   Over any run before and any run after the settling M-Pesa payment: no reminder that was pending at that commit
   reaches the provider again, unless a reconciler pass still held a read from which it could retry it; and none is
   created for the transaction, unless a scheduler run under way had read it while it was open.
   */
  lemma SettledMeansSilence(before: seq<Event>, txn: nat, amount: int, now: int, after: seq<Event>)
    requires Runs(EMPTY, before)
    requires var s := After(EMPTY, before);
      && Enabled(s, MpesaPayment(txn, amount, now))
      && L.Credited(s.txns[txn], amount).status.Paid?
      && Runs(Step(s, MpesaPayment(txn, amount, now)), after)
    ensures var s := After(EMPTY, before);
      var end := After(Step(s, MpesaPayment(txn, amount, now)), after);
      && (forall id: nat | id < |s.outbox.cells| ::
            PendingFor(s.outbox.cells[id].row, txn) && NoLateRetry(s.outbox, id) ==>
              id < |end.outbox.cells| && end.outbox.cells[id].sends == s.outbox.cells[id].sends)
      && (NoReader(s, txn) ==> forall i :: 0 <= i < |after| && after[i].Schedule? ==> after[i].txn != txn)
  {
    var s, e := After(EMPTY, before), MpesaPayment(txn, amount, now);
    RunKeepsBooks(EMPTY, before);
    StepKeepsBooks(s, e);
    var s' := Step(s, e);
    forall id: nat | id < |s.outbox.cells| && PendingFor(s.outbox.cells[id].row, txn) && NoLateRetry(s.outbox, id)
      ensures id < |After(s', after).outbox.cells|
              && After(s', after).outbox.cells[id].sends == s.outbox.cells[id].sends
    {
      SettlementKeepsRow(s, e, txn, id);
      FrozenStaysUnsent(s', after, id);
    }
    if NoReader(s, txn) {
      PaidIsNeverScheduled(s', after, txn);
    }
  }

  /** While reconciler passes have not overlapped, no pass holds a read of a row that is pending. */
  lemma SerialLeavesNoLateRetry(before: seq<Event>, id: nat)
    requires Runs(EMPTY, before) && SerialRun(EMPTY, before)
    requires id < |After(EMPTY, before).outbox.cells| && After(EMPTY, before).outbox.cells[id].row.status.Pending?
    ensures NoLateRetry(After(EMPTY, before).outbox, id)
    ensures forall p | p in After(EMPTY, before).outbox.seen :: id !in After(EMPTY, before).outbox.seen[p]
  {
    var s := After(EMPTY, before).outbox;
    RunKeepsGood(EMPTY, before);
    forall p | p in s.seen ensures id !in s.seen[p] {
      assert id in s.seen[p] ==> P.ReadOk(s, p, id);
    }
  }

  // ---------------------------------------------------------------- a run in which the silence is broken

  /** The same events in the joint system. */
  function Lifted(es: seq<P.Event>): seq<Event> {
    if es == [] then [] else [OutboxEvent(es[0])] + Lifted(es[1..])
  }

  lemma {:induction false} LiftReaches(s: System, es: seq<P.Event>, t: P.State)
    requires P.Reaches(s.outbox, es, t) && forall i :: 0 <= i < |es| ==> !es[i].Insert?
    ensures Runs(s, Lifted(es)) && After(s, Lifted(es)) == s.(outbox := t)
    decreases es
  {
    if es != [] {
      var e := OutboxEvent(es[0]);
      assert !es[0].Insert?;
      LiftReaches(Step(s, e), es[1..], t);
      assert Lifted(es)[1..] == Lifted(es[1..]);
    }
  }

  lemma {:induction false} RunConcat(s: System, xs: seq<Event>, ys: seq<Event>)
    requires Runs(s, xs) && Runs(After(s, xs), ys)
    ensures Runs(s, xs + ys) && After(s, xs + ys) == After(After(s, xs), ys)
    decreases xs
  {
    if xs == [] {
      assert xs + ys == ys;
    } else {
      assert (xs + ys)[0] == xs[0] && (xs + ys)[1..] == xs[1..] + ys;
      RunConcat(Step(s, xs[0]), xs[1..], ys);
    }
  }

  lemma RunOne(s: System, e: Event, es: seq<Event>)
    requires Enabled(s, e) && Runs(Step(s, e), es)
    ensures Runs(s, [e] + es) && After(s, [e] + es) == After(Step(s, e), es)
  {
    assert ([e] + es)[1..] == es;
  }

  /** A transaction and its one reminder. */
  lemma OneReminder(t: L.Txn, row: Outbox.Row) returns (es: seq<Event>)
    requires L.Sound(t) && L.Schedulable(t) && row.status.Pending? && row.retryCount == 0 && row.transaction == Some(0)
    ensures Runs(EMPTY, es) && After(EMPTY, es) == System(O.Single(row, 0, map[]), [t], map[])
  {
    var read, insert := SchedulerRead(0, {0}), Schedule(0, 0, row);
    var s1 := Step(EMPTY, NewTxn(t));
    var s2 := Step(s1, read);
    var s3 := Step(s2, insert);
    var s4 := Step(s3, SchedulerEnd(0));
    es := [NewTxn(t), read, insert, SchedulerEnd(0)];
    assert s4.readers == map[];
    RunOne(s3, SchedulerEnd(0), []);
    RunOne(s2, insert, [SchedulerEnd(0)]);
    RunOne(s1, read, [insert, SchedulerEnd(0)]);
    RunOne(EMPTY, NewTxn(t), [read, insert, SchedulerEnd(0)]);
  }

  /** The reminder is sent without a clear answer, read by two passes, and made pending by the first. */
  lemma ReadTwiceAndRetried(row0: Outbox.Row) returns (es: seq<P.Event>, row: Outbox.Row, read: Outbox.Row)
    requires Outbox.Pollable(row0, 0) && row0.retryCount == 0
    ensures P.Reaches(O.Single(row0, 0, map[]), es, O.Single(row, 1, O.Unwritten(map[], map[0 := read])))
    ensures forall i :: 0 <= i < |es| ==> !es[i].Insert?
    ensures row.status.Pending? && row.transaction == row0.transaction && row.scheduledAt == row0.scheduledAt
    ensures row.maxRetries == row0.maxRetries && read.retryCount == 0
  {
    read := Outbox.Attempt(row0, Outbox.Ambiguous, 0);
    row := Outbox.Resolve(read, 0, Outbox.NotFound, 0);
    var both, write := map[0 := read], [P.PassWrite(0, 0, Outbox.NotFound, 0)];
    O.SentAndReadTwice(row0, read);
    assert both - {0} == map[];
    P.ReachesConcat(O.Single(row0, 0, map[]), O.SendOnce(0, 0, 0) + O.TwoReads(),
                    O.Single(read, 1, O.Unwritten(both, both)), write, O.Single(row, 1, O.Unwritten(map[], both)));
    es := O.SendOnce(0, 0, 0) + O.TwoReads() + write;
  }

  /**
   With overlapping passes the silence can break: a run in which a reminder is pending when the M-Pesa worker settles
   its transaction and suppresses it, the second pass writes its old `not_found`, and the reminder is sent.
   */
  lemma LateWriteBreaksSilence() returns (before: seq<Event>, after: seq<Event>)
    ensures Runs(EMPTY, before)
    ensures var s := After(EMPTY, before);
      && Enabled(s, MpesaPayment(0, 100, 0)) && Settles(s, MpesaPayment(0, 100, 0), 0)
      && 0 < |s.outbox.cells| && PendingFor(s.outbox.cells[0].row, 0)
      && Runs(Step(s, MpesaPayment(0, 100, 0)), after)
      && var end := After(Step(s, MpesaPayment(0, 100, 0)), after);
      0 < |end.outbox.cells| && end.outbox.cells[0].sends == s.outbox.cells[0].sends + 1
  {
    var t := L.Txn("", 0, L.Credit, 100, 0, Some(0), L.TxnStatus.Pending);
    var row0 := O.SampleRow(2).(transaction := Some(0));
    var start := OneReminder(t, row0);
    var es, row, read := ReadTwiceAndRetried(row0);
    var u := O.Single(row, 1, O.Unwritten(map[], map[0 := read]));
    LiftReaches(System(O.Single(row0, 0, map[]), [t], map[]), es, u);
    RunConcat(EMPTY, start, Lifted(es));
    before := start + Lifted(es);
    var s, e := System(u, [t], map[]), MpesaPayment(0, 100, 0);
    assert 1 in u.seen && 0 in u.seen[1] && u.seen[1][0] == read;
    SettlementKeepsRow(s, e, 0, 0);
    after := LateRetryIsSent(Step(s, e), 0);
  }
}
