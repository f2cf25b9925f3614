/**
 Where the bound on sends fails: writes from an old read (domain/reconciliation_service.py, workers/reconciliation.py)
 and the one transition that loses a send (domain/outbox.py).
 */
module Oversending {
  import opened Prelude
  import opened Outbox
  import opened OutboxProtocol

  /** What the invariant allows a free row to have behind it. */
  predicate Accounted(row: Row, sends: nat, aborts: nat) {
    sends <= Spent(row) + aborts
  }

  /**
   A pass writes `not_found` from a read that may be out of date. For every history the invariant
   allows, the row is still accounted for afterwards exactly when the counter it writes reaches
   what the stored row has already spent.
   */
  lemma StaleWriteExact(row: Row, readRetry: nat, now: int)
    ensures (forall sends: nat, aborts: nat | Accounted(row, sends, aborts) ::
               Accounted(Resolve(row, readRetry, NotFound, now), sends, aborts))
            <==> Spent(row) <= readRetry + 1
  {
    var row' := Resolve(row, readRetry, NotFound, now);
    if readRetry + 1 < Spent(row) {
      assert Accounted(row, Spent(row), 0) && !Accounted(row', Spent(row), 0);
    }
  }

  /**
   `transition_status` keeps the account on every allowed transition but one: UNKNOWN_DELIVERY back
   to PENDING does not advance retry_count while there is budget left.
   */
  lemma TransitionAccountsExactly(row: Row, to: Status, provider: string, now: int)
    requires Transition(row, to, provider, now).Ok?
    ensures Spent(row) <= Spent(Transition(row, to, provider, now).value)
            <==> !(row.status.UnknownDelivery? && to.Pending? && row.retryCount < row.maxRetries)
  {
  }

  // ---------------------------------------------------------------- runs that are timely as far as they go

  /** `es` can run from `s`, makes only timely writes, and ends in `t`. */
  predicate TimelyReaches(s: State, es: seq<Event>, t: State) {
    Reaches(s, es, t) && TimelyRun(s, es)
  }

  lemma {:induction false} TimelyConcat(s: State, xs: seq<Event>, t: State, ys: seq<Event>, u: State)
    requires TimelyReaches(s, xs, t) && TimelyReaches(t, ys, u)
    ensures TimelyReaches(s, xs + ys, u)
    decreases xs
  {
    if xs == [] {
      assert xs + ys == ys;
    } else {
      assert (xs + ys)[1..] == xs[1..] + ys;
      TimelyConcat(Step(s, xs[0]), xs[1..], t, ys, u);
    }
  }

  lemma TimelyOne(s: State, e: Event, t: State)
    requires Enabled(s, e) && Timely(s, e) && t == Step(s, e)
    ensures TimelyReaches(s, [e], t)
  {
    assert [e][1..] == [];
    assert Runs(t, []) && After(t, []) == t && TimelyRun(t, []);
  }

  lemma TimelyTwo(s: State, a: Event, t: State, b: Event, u: State)
    requires Enabled(s, a) && Timely(s, a) && t == Step(s, a)
    requires Enabled(t, b) && Timely(t, b) && u == Step(t, b)
    ensures TimelyReaches(s, [a, b], u)
  {
    TimelyOne(s, a, t);
    TimelyOne(t, b, u);
    TimelyConcat(s, [a], t, [b], u);
    assert [a] + [b] == [a, b];
  }

  /** A worker polls one row, gets no clear answer from the provider, and commits. */
  function SendOnce(w: nat, id: nat, now: int): seq<Event> {
    [Poll(w, {id}, now), Treat(w, id, Ambiguous, now)] + [Commit(w)]
  }

  /** The state after that: one send more, the row UNKNOWN_DELIVERY, nothing else. */
  function AfterSend(s: State, id: nat, now: int): State
    requires id < |s.cells|
  {
    var c := s.cells[id];
    s.(cells := s.cells[id := Cell(Attempt(c.row, Ambiguous, now), c.sends + 1, c.aborts)])
  }

  /** The same state with the worker's transaction still open. */
  function BeforeCommit(s: State, w: nat, id: nat, now: int): State
    requires id < |s.cells|
  {
    var c := s.cells[id];
    State(s.cells[id := c.(sends := c.sends + 1)],
          s.open[w := Work(map[id := Attempt(c.row, Ambiguous, now)], {}, {id})], s.seen)
  }

  /** The state with the worker holding the row it polled. */
  function AfterPoll(s: State, w: nat, id: nat): State
    requires id < |s.cells|
  {
    s.(open := s.open[w := Work(map[id := s.cells[id].row], {id}, {})])
  }

  lemma PollOne(s: State, w: nat, id: nat, now: int)
    requires w !in s.open && id < |s.cells| && Free(s, id) && Pollable(s.cells[id].row, now)
    ensures Enabled(s, Poll(w, {id}, now)) && Step(s, Poll(w, {id}, now)) == AfterPoll(s, w, id)
  {
    var polled := Step(s, Poll(w, {id}, now));
    assert polled.open[w].view == map[id := s.cells[id].row];
  }

  lemma TreatOne(s: State, w: nat, id: nat, now: int)
    requires id < |s.cells| && s.cells[id].row.status.Pending?
    ensures var polled := AfterPoll(s, w, id);
      && Enabled(polled, Treat(w, id, Ambiguous, now))
      && Step(polled, Treat(w, id, Ambiguous, now)) == BeforeCommit(s, w, id, now)
  {
    var treated := Step(AfterPoll(s, w, id), Treat(w, id, Ambiguous, now));
    assert treated.open[w].view == map[id := Attempt(s.cells[id].row, Ambiguous, now)];
    assert treated.open[w] == BeforeCommit(s, w, id, now).open[w];
    assert treated.open == BeforeCommit(s, w, id, now).open;
  }

  lemma PollAndTreat(s: State, w: nat, id: nat, now: int)
    requires w !in s.open && id < |s.cells| && Free(s, id) && Pollable(s.cells[id].row, now)
    ensures TimelyReaches(s, [Poll(w, {id}, now), Treat(w, id, Ambiguous, now)], BeforeCommit(s, w, id, now))
  {
    PollOne(s, w, id, now);
    TreatOne(s, w, id, now);
    TimelyTwo(s, Poll(w, {id}, now), AfterPoll(s, w, id), Treat(w, id, Ambiguous, now), BeforeCommit(s, w, id, now));
  }

  lemma CommitSent(s: State, w: nat, id: nat, now: int)
    requires w !in s.open && id < |s.cells|
    ensures TimelyReaches(BeforeCommit(s, w, id, now), [Commit(w)], AfterSend(s, id, now))
  {
    var open := BeforeCommit(s, w, id, now);
    var t := Step(open, Commit(w));
    assert t.open == s.open;
    assert t.cells == AfterSend(s, id, now).cells;
    TimelyOne(open, Commit(w), t);
  }

  lemma SendOnceReaches(s: State, w: nat, id: nat, now: int)
    requires w !in s.open && id < |s.cells| && Free(s, id) && Pollable(s.cells[id].row, now)
    ensures TimelyReaches(s, SendOnce(w, id, now), AfterSend(s, id, now))
  {
    PollAndTreat(s, w, id, now);
    CommitSent(s, w, id, now);
    TimelyConcat(s, [Poll(w, {id}, now), Treat(w, id, Ambiguous, now)], BeforeCommit(s, w, id, now),
                 [Commit(w)], AfterSend(s, id, now));
  }

  /** A pass reads one row and writes `not_found` at once. */
  function ReadAndWrite(p: nat, id: nat, now: int): seq<Event> {
    [PassRead(p, {id}), PassWrite(p, id, NotFound, now)]
  }

  function AfterRetry(s: State, p: nat, id: nat, now: int): State
    requires id < |s.cells|
  {
    var c := s.cells[id];
    s.(cells := s.cells[id := c.(row := Resolve(c.row, c.row.retryCount, NotFound, now))], seen := s.seen[p := map[]])
  }

  lemma ReadAndWriteReaches(s: State, p: nat, id: nat, now: int)
    requires p !in s.seen && id < |s.cells| && Free(s, id) && s.cells[id].row.status.UnknownDelivery?
    ensures TimelyReaches(s, ReadAndWrite(p, id, now), AfterRetry(s, p, id, now))
  {
    var read := Step(s, PassRead(p, {id}));
    assert read.seen[p] == map[id := s.cells[id].row];
    var t := Step(read, PassWrite(p, id, NotFound, now));
    assert t.seen[p] == map[];
    assert t.seen == s.seen[p := map[]];
    TimelyTwo(s, PassRead(p, {id}), read, PassWrite(p, id, NotFound, now), t);
  }

  // ---------------------------------------------------------------- an untimely write oversends

  /** One more provider call behind the row than its retry counter and its rollbacks account for. */
  predicate Overdrawn(s: State, id: nat) {
    id < |s.cells| && Free(s, id) && s.cells[id].sends > s.cells[id].row.retryCount + s.cells[id].aborts
  }

  /** Send, read, write and again, until the retry budget is used up. */
  lemma {:induction false} OverdrawnOversends(s: State, id: nat, now: int) returns (es: seq<Event>, t: State)
    requires Overdrawn(s, id) && Pollable(s.cells[id].row, now)
    ensures TimelyReaches(s, es, t) && id < |t.cells|
    ensures t.cells[id].sends > t.cells[id].row.maxRetries + t.cells[id].aborts
    decreases s.cells[id].row.maxRetries - s.cells[id].row.retryCount
  {
    var w := NumberAbove(s.open.Keys);
    var p := NumberAbove(s.seen.Keys);
    var sent := AfterSend(s, id, now);
    SendOnceReaches(s, w, id, now);
    es, t := SendOnce(w, id, now), sent;
    if s.cells[id].row.retryCount + 1 < s.cells[id].row.maxRetries {
      var retried := AfterRetry(sent, p, id, now);
      ReadAndWriteReaches(sent, p, id, now);
      TimelyConcat(s, es, sent, ReadAndWrite(p, id, now), retried);
      var more, end := OverdrawnOversends(retried, id, now);
      TimelyConcat(s, es + ReadAndWrite(p, id, now), retried, more, end);
      es, t := es + ReadAndWrite(p, id, now) + more, end;
    }
  }

  /** No row was sent more than max_retries times, not counting sends whose transaction was rolled back. */
  ghost predicate WithinRetries(s: State) {
    forall id: nat | id < |s.cells| :: s.cells[id].sends <= s.cells[id].row.maxRetries + s.cells[id].aborts
  }

  /** Every run from `s` whose writes are timely keeps the bound. */
  ghost predicate KeepsBound(s: State) {
    forall es | Runs(s, es) && TimelyRun(s, es) :: WithinRetries(After(s, es))
  }

  lemma InvKeepsBound(s: State)
    requires Inv(s)
    ensures KeepsBound(s)
  {
    forall es | Runs(s, es) && TimelyRun(s, es) ensures WithinRetries(After(s, es)) {
      RunKeepsInv(s, es);
    }
  }

  /** A free scheduled row that a `not_found` write leaves with a send too many breaks the bound, at once or later. */
  lemma OverdrawnBreaksBound(s: State, e: Event)
    requires Enabled(s, e) && e.PassWrite? && e.answer.NotFound?
    requires var c := s.cells[e.id];
      c.row.scheduledAt.Some? && c.sends > Min(s.seen[e.pass][e.id].retryCount + 1, c.row.maxRetries) + c.aborts
    ensures !KeepsBound(Step(s, e))
  {
    var s', c := Step(s, e), s.cells[e.id];
    if s.seen[e.pass][e.id].retryCount + 1 < c.row.maxRetries {
      var es, t := OverdrawnOversends(s', e.id, c.row.scheduledAt.value);
      assert !WithinRetries(After(s', es));
    } else {
      assert s'.cells[e.id].sends > s'.cells[e.id].row.maxRetries + s'.cells[e.id].aborts;
      assert Runs(s', []) && TimelyRun(s', []) && !WithinRetries(After(s', []));
    }
  }

  /**
   A pass writes `not_found` from an old read, in any state the invariant allows, over any scheduled row that nobody
   holds: every timely run after it keeps the bound if and only if the sends made so far are covered by the counter it
   writes, or by max_retries if that is less, and by the rollbacks. Otherwise some run calls the provider more than
   max_retries times without any further rollback.
   */
  lemma LateWriteExact(s: State, e: Event)
    requires Inv(s) && Enabled(s, e) && e.PassWrite? && e.answer.NotFound? && s.cells[e.id].row.scheduledAt.Some?
    ensures var c := s.cells[e.id];
      KeepsBound(Step(s, e))
      <==> c.sends <= Min(s.seen[e.pass][e.id].retryCount + 1, c.row.maxRetries) + c.aborts
  {
    var c, read := s.cells[e.id], s.seen[e.pass][e.id].retryCount;
    if c.sends <= Min(read + 1, c.row.maxRetries) + c.aborts {
      var row := Resolve(c.row, read, NotFound, e.now);
      InvKeepsBound(Step(s, e));
    } else {
      OverdrawnBreaksBound(s, e);
    }
  }

  /** So over a row that has spent all it may account for, the timely writes are exactly those that keep the bound. */
  lemma TimelyWriteExact(s: State, e: Event)
    requires Inv(s) && Enabled(s, e) && e.PassWrite? && e.answer.NotFound?
    requires var c := s.cells[e.id]; c.row.scheduledAt.Some? && c.sends == Spent(c.row) + c.aborts
    ensures Timely(s, e) <==> KeepsBound(Step(s, e))
  {
    LateWriteExact(s, e);
  }

  // ---------------------------------------------------------------- a whole run from the empty table

  function SampleRow(maxRetries: nat): Row {
    Row(1, None, Pending, 1, 0, maxRetries, Some(0), 0, None, None, None, None, None)
  }

  /** A table of one row that nobody holds. */
  function Single(row: Row, sends: nat, seen: map<nat, map<nat, Row>>): State {
    State([Cell(row, sends, 0)], map[], seen)
  }

  /** Sending the only row. */
  lemma SingleSend(row: Row, sends: nat, seen: map<nat, map<nat, Row>>)
    requires Pollable(row, 0)
    ensures Reaches(Single(row, sends, seen), SendOnce(0, 0, 0), Single(Attempt(row, Ambiguous, 0), sends + 1, seen))
  {
    SendOnceReaches(Single(row, sends, seen), 0, 0, 0);
    assert AfterSend(Single(row, sends, seen), 0, 0) == Single(Attempt(row, Ambiguous, 0), sends + 1, seen);
  }

  /** Both passes read the row. */
  function TwoReads(): seq<Event> {
    [PassRead(0, {0}), PassRead(1, {0})]
  }

  lemma TwoReadsReach(row: Row, sends: nat)
    requires row.status.UnknownDelivery?
    ensures Reaches(Single(row, sends, map[]), TwoReads(),
                    Single(row, sends, map[0 := map[0 := row], 1 := map[0 := row]]))
  {
    var s, read := Single(row, sends, map[]), map[0 := row];
    var s1 := Step(s, PassRead(0, {0}));
    assert s1.seen[0] == read && s1.seen == map[0 := read];
    var s2 := Step(s1, PassRead(1, {0}));
    assert s2.seen[1] == read && s2.seen == map[0 := read, 1 := read];
    TimelyTwo(s, PassRead(0, {0}), s1, PassRead(1, {0}), s2);
  }

  /** What the two passes still have to write. */
  function Unwritten(read: map<nat, Row>, late: map<nat, Row>): map<nat, map<nat, Row>> {
    map[0 := read, 1 := late]
  }

  /** Send, two reads, the first write, send, the write from the second, now old, read, send. */
  function OverlappingPasses(): seq<Event> {
    [Insert(SampleRow(2))] + SendOnce(0, 0, 0) + TwoReads() + [PassWrite(0, 0, NotFound, 0)] + SendOnce(0, 0, 0)
    + [PassWrite(1, 0, NotFound, 0)] + SendOnce(0, 0, 0)
  }

  /** The only row is sent without a clear answer and read by both passes. */
  lemma SentAndReadTwice(row0: Row, row1: Row)
    requires Pollable(row0, 0) && row1 == Attempt(row0, Ambiguous, 0)
    ensures Reaches(Single(row0, 0, map[]), SendOnce(0, 0, 0) + TwoReads(),
                    Single(row1, 1, Unwritten(map[0 := row1], map[0 := row1])))
  {
    SingleSend(row0, 0, map[]);
    TwoReadsReach(row1, 1);
    ReachesConcat(Single(row0, 0, map[]), SendOnce(0, 0, 0), Single(row1, 1, map[]), TwoReads(),
                  Single(row1, 1, Unwritten(map[0 := row1], map[0 := row1])));
  }

  /** The run up to both reads. */
  lemma BothReadsReach(row0: Row, row1: Row)
    requires row0 == SampleRow(2) && row1 == Attempt(row0, Ambiguous, 0)
    ensures Reaches(EMPTY, [Insert(row0)] + SendOnce(0, 0, 0) + TwoReads(),
                    Single(row1, 1, Unwritten(map[0 := row1], map[0 := row1])))
  {
    ReachesOne(EMPTY, Insert(row0));
    SentAndReadTwice(row0, row1);
    ReachesConcat(EMPTY, [Insert(row0)], Single(row0, 0, map[]), SendOnce(0, 0, 0) + TwoReads(),
                  Single(row1, 1, Unwritten(map[0 := row1], map[0 := row1])));
    assert [Insert(row0)] + (SendOnce(0, 0, 0) + TwoReads()) == [Insert(row0)] + SendOnce(0, 0, 0) + TwoReads();
  }

  /** The run up to the second send. */
  lemma FirstPassReaches(row0: Row, row1: Row, row3: Row)
    requires row0 == SampleRow(2) && row1 == Attempt(row0, Ambiguous, 0)
    requires row3 == Attempt(Resolve(row1, 0, NotFound, 0), Ambiguous, 0)
    ensures Reaches(EMPTY, [Insert(row0)] + SendOnce(0, 0, 0) + TwoReads()
                           + [PassWrite(0, 0, NotFound, 0)] + SendOnce(0, 0, 0),
                    Single(row3, 2, Unwritten(map[], map[0 := row1])))
  {
    var row2, read := Resolve(row1, 0, NotFound, 0), map[0 := row1];
    var es := [Insert(row0)] + SendOnce(0, 0, 0) + TwoReads();
    BothReadsReach(row0, row1);
    assert read - {0} == map[];
    ReachesConcat(EMPTY, es, Single(row1, 1, Unwritten(read, read)), [PassWrite(0, 0, NotFound, 0)],
                  Single(row2, 1, Unwritten(map[], read)));
    SingleSend(row2, 1, Unwritten(map[], read));
    ReachesConcat(EMPTY, es + [PassWrite(0, 0, NotFound, 0)], Single(row2, 1, Unwritten(map[], read)),
                  SendOnce(0, 0, 0), Single(row3, 2, Unwritten(map[], read)));
  }

  /** With overlapping passes a row with max_retries 2 is sent three times though nothing was rolled back. */
  lemma OverlappingPassesOversend()
    ensures exists row: Row ::
              row.maxRetries == 2 && Reaches(EMPTY, OverlappingPasses(), Single(row, 3, Unwritten(map[], map[])))
  {
    var row0 := SampleRow(2);
    var row1 := Attempt(row0, Ambiguous, 0);
    var row3 := Attempt(Resolve(row1, 0, NotFound, 0), Ambiguous, 0);
    var row4 := Resolve(row3, 0, NotFound, 0);
    var row5, read := Attempt(row4, Ambiguous, 0), map[0 := row1];
    var es := [Insert(row0)] + SendOnce(0, 0, 0) + TwoReads() + [PassWrite(0, 0, NotFound, 0)] + SendOnce(0, 0, 0);
    FirstPassReaches(row0, row1, row3);
    assert read - {0} == map[];
    ReachesConcat(EMPTY, es, Single(row3, 2, Unwritten(map[], read)), [PassWrite(1, 0, NotFound, 0)],
                  Single(row4, 2, Unwritten(map[], map[])));
    SingleSend(row4, 2, Unwritten(map[], map[]));
    ReachesConcat(EMPTY, es + [PassWrite(1, 0, NotFound, 0)], Single(row4, 2, Unwritten(map[], map[])),
                  SendOnce(0, 0, 0), Single(row5, 3, Unwritten(map[], map[])));
    assert row5.maxRetries == 2;
  }
}
