/**
 The outbox under concurrency: send workers that poll with SKIP LOCKED, reconciler passes that
 read and write at different moments, and provider callbacks, in any interleaving.
 */
module OutboxProtocol {
  import opened Prelude
  import opened Outbox

  /**
   A committed row together with its history at the provider: `sends` counts calls for the message, `aborts` the
   rolled-back worker transactions that had already made such a call.
   */
  datatype Cell = Cell(row: Row, sends: nat, aborts: nat)

  /** An open worker transaction: the locked rows as it sees them, those still to treat, those handed over. */
  datatype Work = Work(view: map<nat, Row>, todo: set<nat>, handed: set<nat>)

  /** `seen` holds what each reconciler pass has read and not yet written. */
  datatype State = State(cells: seq<Cell>, open: map<nat, Work>, seen: map<nat, map<nat, Row>>)

  datatype Event =
    | Insert(row: Row)
    | Poll(worker: nat, batch: set<nat>, now: int)
    | Treat(worker: nat, id: nat, outcome: Outcome, now: int)
    | Commit(worker: nat)
    | Rollback(worker: nat)
    | PassRead(pass: nat, ids: set<nat>)
    | PassWrite(pass: nat, id: nat, answer: Answer, now: int)
    | PassEnd(pass: nat)
    | Callback(id: nat, status: Status, now: int)
    | Suppress(id: nat, now: int)

  /** No worker holds the row lock of `id`. */
  predicate Free(s: State, id: nat) {
    forall w | w in s.open :: id !in s.open[w].view
  }

  function Rows(s: State): seq<Row> {
    seq(|s.cells|, i requires 0 <= i < |s.cells| => s.cells[i].row)
  }

  predicate Enabled(s: State, e: Event) {
    match e
    case Insert(row) => row.status.Pending? && row.retryCount == 0
    case Poll(w, batch, now) =>
      && w !in s.open
      && forall id | id in batch :: id < |s.cells| && Pollable(s.cells[id].row, now) && Free(s, id)
    case Treat(w, id, _, _) => w in s.open && id in s.open[w].todo && id in s.open[w].view && id < |s.cells|
    case Commit(w) => w in s.open
    case Rollback(w) => w in s.open
    case PassRead(_, ids) => forall id | id in ids :: id < |s.cells| && s.cells[id].row.status.UnknownDelivery?
    case PassWrite(p, id, _, _) => p in s.seen && id in s.seen[p] && id < |s.cells| && Free(s, id)
    case PassEnd(p) => p in s.seen
    case Callback(id, status, _) =>
      id < |s.cells| && Free(s, id) && (status.Sent? || status.Delivered? || status.Failed?)
    case Suppress(id, _) => id < |s.cells| && Free(s, id)
  }

  function Overwritten(row: Row, status: Status, now: int): Row {
    match status
    case Delivered => row.(status := status, deliveredAt := Some(now), updatedAt := now)
    case Failed => row.(status := status, failedAt := Some(now), updatedAt := now)
    case _ => row.(status := status, updatedAt := now)
  }

  function WithRow(s: State, id: nat, row: Row): State
    requires id < |s.cells|
  {
    s.(cells := s.cells[id := s.cells[id].(row := row)])
  }

  /** The worker's copy of a row becomes `row`; `calls` says whether the provider was called meanwhile. */
  function Treated(s: State, w: nat, id: nat, row: Row, calls: bool): State
    requires w in s.open && id < |s.cells|
  {
    var work := s.open[w];
    s.(open := s.open[w := Work(work.view[id := row], work.todo - {id},
                                if calls then work.handed + {id} else work.handed)],
       cells := if calls then s.cells[id := s.cells[id].(sends := s.cells[id].sends + 1)] else s.cells)
  }

  function Step(s: State, e: Event): State
    requires Enabled(s, e)
  {
    match e
    case Insert(row) => s.(cells := s.cells + [Cell(row, 0, 0)])
    case Poll(w, batch, _) =>
      s.(open := s.open[w := Work(map id | id in batch :: s.cells[id].row, batch, {})])
    case Treat(w, id, o, now) =>
      Treated(s, w, id, Attempt(s.open[w].view[id], o, now), s.open[w].view[id].status.Pending? && CallsProvider(o))
    case Commit(w) =>
      var view := s.open[w].view;
      s.(open := s.open - {w},
         cells := seq(|s.cells|, i requires 0 <= i < |s.cells| =>
                    if i in view then s.cells[i].(row := view[i]) else s.cells[i]))
    case Rollback(w) =>
      var handed := s.open[w].handed;
      s.(open := s.open - {w},
         cells := seq(|s.cells|, i requires 0 <= i < |s.cells| =>
                    if i in handed then s.cells[i].(aborts := s.cells[i].aborts + 1) else s.cells[i]))
    case PassRead(p, ids) => s.(seen := s.seen[p := map id | id in ids :: s.cells[id].row])
    case PassWrite(p, id, answer, now) =>
      var read := s.seen[p];
      WithRow(s, id, Resolve(s.cells[id].row, read[id].retryCount, answer, now)).(seen := s.seen[p := read - {id}])
    case PassEnd(p) => s.(seen := s.seen - {p})
    case Callback(id, status, now) => WithRow(s, id, Overwritten(s.cells[id].row, status, now))
    case Suppress(id, now) => WithRow(s, id, s.cells[id].row.(status := Suppressed, updatedAt := now))
  }

  /** A report of any of the three final statuses may arrive for any row that is not locked, and sets its columns. */
  lemma CallbackWrites(s: State, id: nat, status: Status, now: int)
    requires id < |s.cells| && Free(s, id)
    ensures Enabled(s, Callback(id, status, now)) <==> status in {Sent, Delivered, Failed}
    ensures Enabled(s, Callback(id, status, now)) ==>
              var was, row := s.cells[id].row, Step(s, Callback(id, status, now)).cells[id].row;
              row == was.(status := status, updatedAt := now,
                          deliveredAt := if status == Delivered then Some(now) else was.deliveredAt,
                          failedAt := if status == Failed then Some(now) else was.failedAt)
  {
  }

  /** The events can happen one after the other from `s`. */
  predicate Runs(s: State, es: seq<Event>)
    decreases es
  {
    es == [] || (Enabled(s, es[0]) && Runs(Step(s, es[0]), es[1..]))
  }

  function After(s: State, es: seq<Event>): State
    requires Runs(s, es)
    decreases es
  {
    if es == [] then s else After(Step(s, es[0]), es[1..])
  }

  const EMPTY := State([], map[], map[])

  // ---------------------------------------------------------------- the invariant

  /** The most provider calls that a committed row can account for without any rollback. */
  function Spent(row: Row): int {
    Min(if row.status.Pending? then row.retryCount else row.retryCount + 1, row.maxRetries)
  }

  /** No row is locked by two workers. */
  ghost predicate Exclusive(s: State) {
    forall v, w | v in s.open && w in s.open && v != w :: s.open[v].view.Keys !! s.open[w].view.Keys
  }

  /** A locked row: what is stored, what its holder sees, and whether the holder has called the provider for it. */
  predicate LockedOk(cell: Cell, mine: Row, handed: bool) {
    && cell.row.status.Pending?
    && cell.row.retryCount < cell.row.maxRetries
    && mine.retryCount == cell.row.retryCount
    && mine.maxRetries == cell.row.maxRetries
    && (mine.status.Pending? ==> !handed)
    && cell.sends <= cell.row.retryCount + cell.aborts + if handed then 1 else 0
  }

  ghost predicate WorkOk(s: State, work: Work) {
    && work.todo <= work.view.Keys
    && work.handed <= work.view.Keys
    && work.todo !! work.handed
    && forall id: nat | id in work.view :: id < |s.cells| && LockedOk(s.cells[id], work.view[id], id in work.handed)
  }

  /** A free row: every provider call is accounted for by the row or by a rollback. */
  predicate CellOk(cell: Cell) {
    cell.sends <= Spent(cell.row) + cell.aborts
  }

  ghost predicate Inv(s: State) {
    && Exclusive(s)
    && (forall w | w in s.open :: WorkOk(s, s.open[w]))
    && (forall id: nat | id < |s.cells| && Free(s, id) :: CellOk(s.cells[id]))
  }

  /** The exact condition under which a pass may write `not_found` over a row: see `StaleWriteExact`. */
  predicate Timely(s: State, e: Event) {
    e.PassWrite? && e.answer.NotFound? && Enabled(s, e) ==>
      Spent(s.cells[e.id].row) <= s.seen[e.pass][e.id].retryCount + 1
  }

  predicate TimelyRun(s: State, es: seq<Event>)
    requires Runs(s, es)
    decreases es
  {
    es == [] || (Timely(s, es[0]) && TimelyRun(Step(s, es[0]), es[1..]))
  }

  lemma PollKeepsInv(s: State, w: nat, batch: set<nat>, now: int)
    requires Inv(s) && Enabled(s, Poll(w, batch, now))
    ensures Inv(Step(s, Poll(w, batch, now)))
  {
    var s' := Step(s, Poll(w, batch, now));
    forall v | v in s'.open ensures WorkOk(s', s'.open[v]) {
      if v != w {
        assert WorkOk(s, s.open[v]);
      }
    }
    StillFree(s, s');
  }

  /** Rows that are free after a step that ends no transaction were free before it. */
  lemma StillFree(s: State, s': State)
    requires forall v | v in s.open :: v in s'.open && s.open[v].view.Keys <= s'.open[v].view.Keys
    ensures forall id: nat | Free(s', id) :: Free(s, id)
  {
  }

  lemma AttemptKeepsRetries(row: Row, o: Outcome, now: int)
    ensures Attempt(row, o, now).retryCount == row.retryCount && Attempt(row, o, now).maxRetries == row.maxRetries
    ensures row.status.Pending? && CallsProvider(o) ==> !Attempt(row, o, now).status.Pending?
    ensures !row.status.Pending? ==> !Attempt(row, o, now).status.Pending?
  {
  }

  /** What a worker may store in its own copy of a row it is treating. */
  ghost predicate Treatable(s: State, w: nat, id: nat, row: Row, calls: bool) {
    && Inv(s) && w in s.open && id < |s.cells| && id in s.open[w].todo && id in s.open[w].view
    && row.retryCount == s.open[w].view[id].retryCount && row.maxRetries == s.open[w].view[id].maxRetries
    && (calls ==> !row.status.Pending?)
  }

  lemma TreatedHolder(s: State, w: nat, id: nat, row: Row, calls: bool)
    requires Treatable(s, w, id, row, calls)
    ensures WorkOk(Treated(s, w, id, row, calls), Treated(s, w, id, row, calls).open[w])
  {
    var s' := Treated(s, w, id, row, calls);
    var old_, new_ := s.open[w], s'.open[w];
    assert WorkOk(s, old_);
    assert new_.view.Keys == old_.view.Keys;
    forall x: nat | x in new_.view
      ensures x < |s'.cells| && LockedOk(s'.cells[x], new_.view[x], x in new_.handed)
    {
      assert LockedOk(s.cells[x], old_.view[x], x in old_.handed);
      if x != id {
        assert new_.view[x] == old_.view[x] && s'.cells[x] == s.cells[x];
      }
    }
  }

  /** A row that is free while a worker treats another one is as it was. */
  lemma TreatedFree(s: State, w: nat, id: nat, row: Row, calls: bool)
    requires Treatable(s, w, id, row, calls)
    ensures var s' := Treated(s, w, id, row, calls);
      forall x: nat | x < |s'.cells| && Free(s', x) :: CellOk(s'.cells[x])
  {
    var s' := Treated(s, w, id, row, calls);
    StillFree(s, s');
    forall x: nat | x < |s'.cells| && Free(s', x) ensures CellOk(s'.cells[x]) {
      assert x !in s'.open[w].view;
      assert Free(s, x) && s'.cells[x] == s.cells[x];
    }
  }

  lemma TreatedKeepsInv(s: State, w: nat, id: nat, row: Row, calls: bool)
    requires Treatable(s, w, id, row, calls)
    ensures Inv(Treated(s, w, id, row, calls))
  {
    var s' := Treated(s, w, id, row, calls);
    forall v | v in s'.open ensures WorkOk(s', s'.open[v]) {
      if v == w {
        TreatedHolder(s, w, id, row, calls);
      }
    }
    TreatedFree(s, w, id, row, calls);
  }

  lemma TreatKeepsInv(s: State, w: nat, id: nat, o: Outcome, now: int)
    requires Inv(s) && Enabled(s, Treat(w, id, o, now))
    ensures Inv(Step(s, Treat(w, id, o, now)))
  {
    assert WorkOk(s, s.open[w]);
    AttemptKeepsRetries(s.open[w].view[id], o, now);
    TreatedKeepsInv(s, w, id, Attempt(s.open[w].view[id], o, now),
                    s.open[w].view[id].status.Pending? && CallsProvider(o));
  }

  /** Ending a transaction: the worker's rows become free, every other row stays as it was. */
  lemma CloseKeepsInv(s: State, w: nat, s': State)
    requires Inv(s) && w in s.open
    requires s'.open == s.open - {w} && |s'.cells| == |s.cells|
    requires forall id: nat | id < |s.cells| && id !in s.open[w].view :: s'.cells[id] == s.cells[id]
    requires forall id: nat | id in s.open[w].view && id < |s.cells| ::
               CellOk(s'.cells[id])
    ensures Inv(s')
  {
    forall v | v in s'.open ensures WorkOk(s', s'.open[v]) {
      assert WorkOk(s, s.open[v]) && s.open[v].view.Keys !! s.open[w].view.Keys;
    }
    forall id: nat | id < |s'.cells| && Free(s', id) && id !in s.open[w].view ensures Free(s, id) {
      forall v | v in s.open ensures id !in s.open[v].view {
        assert v == w || v in s'.open;
      }
    }
  }

  lemma CommitKeepsInv(s: State, w: nat)
    requires Inv(s) && Enabled(s, Commit(w))
    ensures Inv(Step(s, Commit(w)))
  {
    assert WorkOk(s, s.open[w]);
    CloseKeepsInv(s, w, Step(s, Commit(w)));
  }

  lemma RollbackKeepsInv(s: State, w: nat)
    requires Inv(s) && Enabled(s, Rollback(w))
    ensures Inv(Step(s, Rollback(w)))
  {
    assert WorkOk(s, s.open[w]);
    CloseKeepsInv(s, w, Step(s, Rollback(w)));
  }

  /** A write to a row no worker holds is harmless when the new row accounts for at least as many sends. */
  lemma RewriteKeepsInv(s: State, id: nat, row: Row)
    requires Inv(s) && id < |s.cells| && Free(s, id)
    requires Spent(s.cells[id].row) <= Spent(row)
    ensures Inv(WithRow(s, id, row))
  {
  }

  lemma InsertKeepsInv(s: State, row: Row)
    requires Inv(s) && Enabled(s, Insert(row))
    ensures Inv(Step(s, Insert(row)))
  {
  }

  lemma StepKeepsInv(s: State, e: Event)
    requires Inv(s) && Enabled(s, e) && Timely(s, e)
    ensures Inv(Step(s, e))
  {
    match e {
      case Insert(row) => InsertKeepsInv(s, row);
      case Poll(w, batch, now) => PollKeepsInv(s, w, batch, now);
      case Treat(w, id, o, now) => TreatKeepsInv(s, w, id, o, now);
      case Commit(w) => CommitKeepsInv(s, w);
      case Rollback(w) => RollbackKeepsInv(s, w);
      case PassWrite(p, id, answer, now) =>
        var row := Resolve(s.cells[id].row, s.seen[p][id].retryCount, answer, now);
        RewriteKeepsInv(s, id, row);
      case Callback(id, status, now) => RewriteKeepsInv(s, id, Overwritten(s.cells[id].row, status, now));
      case Suppress(id, now) => RewriteKeepsInv(s, id, s.cells[id].row.(status := Suppressed, updatedAt := now));
      case _ =>
    }
  }

  lemma {:induction false} RunKeepsInv(s: State, es: seq<Event>)
    requires Inv(s) && Runs(s, es) && TimelyRun(s, es)
    ensures Inv(After(s, es))
    decreases es
  {
    if es != [] {
      StepKeepsInv(s, es[0]);
      RunKeepsInv(Step(s, es[0]), es[1..]);
    }
  }

  // ---------------------------------------------------------------- one reconciler pass at a time

  /** A pass starts reading only when no other pass is under way. */
  predicate Serial(s: State, e: Event) {
    e.PassRead? ==> s.seen.Keys <= {e.pass}
  }

  predicate SerialRun(s: State, es: seq<Event>)
    requires Runs(s, es)
    decreases es
  {
    es == [] || (Serial(s, es[0]) && SerialRun(Step(s, es[0]), es[1..]))
  }

  /** What pass `p` read of row `id` still has the stored retry counter, and the row is not PENDING. */
  predicate ReadOk(s: State, p: nat, id: nat)
    requires p in s.seen && id in s.seen[p]
  {
    id < |s.cells| && !s.cells[id].row.status.Pending? && s.cells[id].row.retryCount == s.seen[p][id].retryCount
  }

  /** At most one pass is under way, and all it has read is still good. */
  ghost predicate Current(s: State) {
    && (forall p, q | p in s.seen && q in s.seen :: p == q)
    && (forall p | p in s.seen :: forall id | id in s.seen[p] :: ReadOk(s, p, id))
  }

  /** A step that reads nothing new and keeps status class and retry counter of every row read. */
  lemma CurrentFrame(s: State, s': State)
    requires Current(s) && s'.seen == s.seen && |s.cells| <= |s'.cells|
    requires forall id: nat | id < |s.cells| && !s.cells[id].row.status.Pending? ::
               !s'.cells[id].row.status.Pending? && s'.cells[id].row.retryCount == s.cells[id].row.retryCount
    ensures Current(s')
  {
  }

  lemma PassReadKeepsCurrent(s: State, e: Event)
    requires Current(s) && Enabled(s, e) && Serial(s, e) && e.PassRead?
    ensures Current(Step(s, e))
  {
  }

  lemma PassWriteKeepsCurrent(s: State, e: Event)
    requires Current(s) && Enabled(s, e) && e.PassWrite?
    ensures Timely(s, e) && Current(Step(s, e))
  {
    var s' := Step(s, e);
    assert ReadOk(s, e.pass, e.id);
    forall q, x | q in s'.seen && x in s'.seen[q] ensures ReadOk(s', q, x) {
      assert q == e.pass && x != e.id && ReadOk(s, q, x);
    }
  }

  lemma PassEndKeepsCurrent(s: State, e: Event)
    requires Current(s) && Enabled(s, e) && e.PassEnd?
    ensures Current(Step(s, e))
  {
  }

  lemma TreatedFrame(s: State, w: nat, id: nat, row: Row, calls: bool)
    requires w in s.open && id < |s.cells|
    ensures var s' := Treated(s, w, id, row, calls);
      && s'.seen == s.seen && |s'.cells| == |s.cells|
      && forall x: nat | x < |s.cells| :: s'.cells[x].row == s.cells[x].row
  {
  }

  lemma CommitKeepsCurrent(s: State, w: nat)
    requires Inv(s) && Current(s) && w in s.open
    ensures Current(Step(s, Commit(w)))
  {
    assert WorkOk(s, s.open[w]);
    forall id: nat | id in s.open[w].view ensures s.cells[id].row.status.Pending? {
      assert LockedOk(s.cells[id], s.open[w].view[id], id in s.open[w].handed);
    }
  }

  lemma TreatKeepsCurrent(s: State, w: nat, id: nat, o: Outcome, now: int)
    requires Current(s) && Enabled(s, Treat(w, id, o, now))
    ensures Current(Step(s, Treat(w, id, o, now)))
  {
    TreatedFrame(s, w, id, Attempt(s.open[w].view[id], o, now), s.open[w].view[id].status.Pending? && CallsProvider(o));
  }

  lemma StepKeepsCurrent(s: State, e: Event)
    requires Inv(s) && Current(s) && Enabled(s, e) && Serial(s, e)
    ensures Timely(s, e) && Current(Step(s, e))
  {
    match e {
      case PassRead(_, _) => PassReadKeepsCurrent(s, e);
      case PassWrite(_, _, _, _) => PassWriteKeepsCurrent(s, e);
      case PassEnd(_) => PassEndKeepsCurrent(s, e);
      case Commit(w) => CommitKeepsCurrent(s, w);
      case Treat(w, id, o, now) => TreatKeepsCurrent(s, w, id, o, now);
      case _ => CurrentFrame(s, Step(s, e));
    }
  }

  lemma {:induction false} SerialIsTimely(s: State, es: seq<Event>)
    requires Inv(s) && Current(s) && Runs(s, es) && SerialRun(s, es)
    ensures TimelyRun(s, es) && Inv(After(s, es)) && Current(After(s, es))
    decreases es
  {
    if es != [] {
      StepKeepsCurrent(s, es[0]);
      StepKeepsInv(s, es[0]);
      SerialIsTimely(Step(s, es[0]), es[1..]);
    }
  }

  // ---------------------------------------------------------------- the guarantees

  lemma {:induction false} AbortsNeedRollback(s: State, es: seq<Event>)
    requires Runs(s, es) && (forall i :: 0 <= i < |es| ==> !es[i].Rollback?)
    requires forall id: nat | id < |s.cells| :: s.cells[id].aborts == 0
    ensures forall id: nat | id < |After(s, es).cells| :: After(s, es).cells[id].aborts == 0
    decreases es
  {
    if es != [] {
      assert !es[0].Rollback?;
      AbortsNeedRollback(Step(s, es[0]), es[1..]);
    }
  }

  /** What the invariant promises of one state. */
  ghost predicate Bounded(s: State) {
    && Exclusive(s)
    && (forall id: nat | id < |s.cells| && Free(s, id) && s.cells[id].row.status.Pending? ::
          s.cells[id].sends <= s.cells[id].row.retryCount + s.cells[id].aborts)
    && (forall id: nat | id < |s.cells| :: s.cells[id].sends <= s.cells[id].row.maxRetries + s.cells[id].aborts)
  }

  /**
   In every interleaving whose `not_found` writes are timely: no row is locked twice, a free PENDING row was
   sent at most retry_count times, any row at most max_retries times, not counting sends whose transaction
   was rolled back; without rollbacks, at most max_retries times.
   */
  lemma SendsAreBounded(es: seq<Event>)
    requires Runs(EMPTY, es) && TimelyRun(EMPTY, es)
    ensures Bounded(After(EMPTY, es))
    ensures (forall i :: 0 <= i < |es| ==> !es[i].Rollback?) ==>
              forall id: nat | id < |After(EMPTY, es).cells| ::
                After(EMPTY, es).cells[id].sends <= After(EMPTY, es).cells[id].row.maxRetries
  {
    RunKeepsInv(EMPTY, es);
    if forall i :: 0 <= i < |es| ==> !es[i].Rollback? {
      AbortsNeedRollback(EMPTY, es);
    }
  }

  /** Runs whose reconciler passes do not overlap are among them. */
  lemma SerialSendsAreBounded(es: seq<Event>)
    requires Runs(EMPTY, es) && SerialRun(EMPTY, es)
    ensures TimelyRun(EMPTY, es) && Bounded(After(EMPTY, es))
  {
    SerialIsTimely(EMPTY, es);
    SendsAreBounded(es);
  }

  /** `poll_pending` only ever locks rows that no other worker holds. */
  lemma PollSkipsLocked(s: State, w: nat, now: int, batchSize: nat)
    requires w !in s.open
    ensures var locked := set id: nat | id < |s.cells| && !Free(s, id);
      Enabled(s, Poll(w, Elements(PollPending(Rows(s), locked, now, batchSize)), now))
  {
    var locked := set id: nat | id < |s.cells| && !Free(s, id);
    var out := PollPending(Rows(s), locked, now, batchSize);
    PollPendingIsQuery(Rows(s), locked, now, batchSize);
    forall id | id in Elements(out) ensures id < |s.cells| && Pollable(s.cells[id].row, now) && Free(s, id) {
      var i :| 0 <= i < |out| && out[i] == id;
    }
  }

  // ---------------------------------------------------------------- runs in pieces

  /** `es` can run from `s` and ends in `t`. */
  predicate Reaches(s: State, es: seq<Event>, t: State) {
    Runs(s, es) && After(s, es) == t
  }

  lemma {:induction false} ReachesConcat(s: State, xs: seq<Event>, t: State, ys: seq<Event>, u: State)
    requires Reaches(s, xs, t) && Reaches(t, ys, u)
    ensures Reaches(s, xs + ys, u)
    decreases xs
  {
    if xs == [] {
      assert xs + ys == ys;
    } else {
      assert (xs + ys)[1..] == xs[1..] + ys;
      ReachesConcat(Step(s, xs[0]), xs[1..], t, ys, u);
    }
  }

  lemma ReachesOne(s: State, e: Event)
    requires Enabled(s, e)
    ensures Reaches(s, [e], Step(s, e))
  {
  }
}
