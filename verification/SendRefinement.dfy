/** The send worker's loop is a run of the concurrent outbox: one Treat event per message. */
module SendRefinement {
  import opened Prelude
  import opened Outbox
  import opened Sends
  import P = OutboxProtocol

  /** The events of worker `w` for the messages of its batch. */
  function Treats(w: nat, rows: seq<Row>, batch: seq<nat>, cs: seq<Circumstance>, cfg: Config): seq<P.Event>
    requires |batch| <= |cs| && InRange(batch, |rows|)
  {
    if batch == [] then []
    else
      var n := |batch| - 1;
      Treats(w, rows, batch[..n], cs, cfg)
      + [P.Treat(w, batch[n], OutcomeOf(SendAll(rows, batch[..n], cs, cfg), batch[n], cs[n], cfg), cs[n].now)]
  }

  /** The worker's own transaction: the treated rows as the loop left them, the others untouched. */
  ghost predicate MatchesView(s: P.State, t: P.State, w: nat, rows: seq<Row>, batch: seq<nat>, handed: seq<nat>)
    requires w in s.open
  {
    && w in t.open
    && t.open[w].view.Keys == s.open[w].view.Keys
    && (forall id: nat | id in batch && id in t.open[w].view && id < |rows| :: t.open[w].view[id] == rows[id])
    && (forall id: nat | id !in batch && id in s.open[w].view :: t.open[w].view[id] == s.open[w].view[id])
    && (forall id: nat | id !in batch && id in s.open[w].todo :: id in t.open[w].todo)
    && t.open[w].handed == s.open[w].handed + Elements(handed)
  }

  /** The stored cells: one more send for every message handed over, nothing else. */
  ghost predicate MatchesCells(s: P.State, t: P.State, handed: seq<nat>) {
    && |t.cells| == |s.cells|
    && (forall id: nat | id < |s.cells| ::
          && t.cells[id].row == s.cells[id].row && t.cells[id].aborts == s.cells[id].aborts
          && t.cells[id].sends == s.cells[id].sends + if id in handed then 1 else 0)
  }

  /** Other workers and the reconciler are as they were. */
  ghost predicate MatchesOthers(s: P.State, t: P.State, w: nat) {
    && t.seen == s.seen && t.open.Keys == s.open.Keys
    && forall v | v in s.open && v != w :: t.open[v] == s.open[v]
  }

  ghost predicate Matches(s: P.State, t: P.State, w: nat, rows: seq<Row>, batch: seq<nat>, handed: seq<nat>)
    requires w in s.open
  {
    && |s.cells| == |rows| && MatchesView(s, t, w, rows, batch, handed) && MatchesCells(s, t, handed)
    && MatchesOthers(s, t, w)
  }

  ghost predicate Holds(s: P.State, w: nat, rows: seq<Row>, batch: seq<nat>) {
    && w in s.open && |rows| == |s.cells| && InRange(batch, |rows|) && Distinct(batch)
    && forall i :: 0 <= i < |batch| ==>
         batch[i] in s.open[w].todo && batch[i] in s.open[w].view && s.open[w].view[batch[i]] == rows[batch[i]]
  }

  /** What the worker finds when it comes to its next message. */
  lemma NextMessage(s: P.State, t: P.State, w: nat, rows: seq<Row>, batch: seq<nat>, cs: seq<Circumstance>,
                    cfg: Config, id: nat)
    requires |batch| < |cs| && InRange(batch, |rows|) && id < |rows| && Holds(s, w, rows, batch + [id])
    requires Matches(s, t, w, SendAll(rows, batch, cs, cfg), batch, Handed(rows, batch, cs, cfg))
    ensures id !in batch && id !in Handed(rows, batch, cs, cfg) && id < |rows| && w in t.open
    ensures id in t.open[w].todo && id in t.open[w].view && t.open[w].view[id] == SendAll(rows, batch, cs, cfg)[id]
  {
    var all := batch + [id];
    assert all[|batch|] == id && forall i :: 0 <= i < |batch| ==> batch[i] == all[i];
    Untouched(rows, batch, cs, cfg, id);
    HandedFromBatch(rows, batch, cs, cfg);
  }

  lemma TreatMatches(s: P.State, t: P.State, w: nat, rows: seq<Row>, batch: seq<nat>, cs: seq<Circumstance>,
                     cfg: Config, id: nat)
    requires |batch| < |cs| && InRange(batch, |rows|) && id < |rows| && Holds(s, w, rows, batch + [id])
    requires Matches(s, t, w, SendAll(rows, batch, cs, cfg), batch, Handed(rows, batch, cs, cfg))
    ensures var done, c := SendAll(rows, batch, cs, cfg), cs[|batch|];
      var e := P.Treat(w, id, OutcomeOf(done, id, c, cfg), c.now);
      && P.Enabled(t, e)
      && Matches(s, P.Step(t, e), w, SendOne(done, id, c, cfg), batch + [id],
                 Handed(rows, batch, cs, cfg) + if Calls(done, id, c, cfg) then [id] else [])
  {
    var done, handed, c := SendAll(rows, batch, cs, cfg), Handed(rows, batch, cs, cfg), cs[|batch|];
    NextMessage(s, t, w, rows, batch, cs, cfg, id);
    var row, calls := Attempt(done[id], OutcomeOf(done, id, c, cfg), c.now), Calls(done, id, c, cfg);
    TreatedMatches(s, t, w, done, batch, id, handed, row, calls);
  }

  lemma TreatedMatches(s: P.State, t: P.State, w: nat, done: seq<Row>, batch: seq<nat>, id: nat, handed: seq<nat>,
                       row: Row, calls: bool)
    requires w in s.open && w in t.open && id < |t.cells| && id < |done| && id in s.open[w].view && id !in batch
             && id !in handed
    requires Matches(s, t, w, done, batch, handed)
    ensures Matches(s, P.Treated(t, w, id, row, calls), w, done[id := row], batch + [id],
                    handed + if calls then [id] else [])
  {
    TreatedMatchesView(s, t, w, done, batch, id, handed, row, calls);
  }

  lemma TreatedMatchesView(s: P.State, t: P.State, w: nat, done: seq<Row>, batch: seq<nat>, id: nat,
                           handed: seq<nat>, row: Row, calls: bool)
    requires w in s.open && id < |done| && id < |t.cells| && id in s.open[w].view && id !in batch
    requires MatchesView(s, t, w, done, batch, handed)
    ensures MatchesView(s, P.Treated(t, w, id, row, calls), w, done[id := row], batch + [id],
                        handed + if calls then [id] else [])
  {
  }

  /** Running the loop is running the protocol, with the same rows and the same provider calls. */
  lemma {:induction false} LoopRefinesProtocol(s: P.State, w: nat, rows: seq<Row>, batch: seq<nat>,
                                               cs: seq<Circumstance>, cfg: Config)
    requires |batch| <= |cs| && Holds(s, w, rows, batch)
    ensures P.Runs(s, Treats(w, rows, batch, cs, cfg))
    ensures Matches(s, P.After(s, Treats(w, rows, batch, cs, cfg)), w, SendAll(rows, batch, cs, cfg), batch,
                    Handed(rows, batch, cs, cfg))
  {
    if batch != [] {
      var front, id, c := batch[..|batch| - 1], batch[|batch| - 1], cs[|batch| - 1];
      assert batch == front + [id];
      LoopRefinesProtocol(s, w, rows, front, cs, cfg);
      var es := Treats(w, rows, front, cs, cfg);
      var t := P.After(s, es);
      TreatMatches(s, t, w, rows, front, cs, cfg, id);
      var e := P.Treat(w, id, OutcomeOf(SendAll(rows, front, cs, cfg), id, c, cfg), c.now);
      P.ReachesOne(t, e);
      P.ReachesConcat(s, es, t, [e], P.Step(t, e));
    }
  }

  // ---------------------------------------------------------------- the whole worker: poll, loop, commit or rollback

  function WorkerRun(w: nat, pollTime: int, rows: seq<Row>, batch: seq<nat>, cs: seq<Circumstance>, cfg: Config,
                     commits: bool): seq<P.Event>
    requires |batch| <= |cs| && InRange(batch, |rows|)
  {
    [P.Poll(w, Elements(batch), pollTime)] + Treats(w, rows, batch, cs, cfg)
    + [if commits then P.Commit(w) else P.Rollback(w)]
  }

  /** What a worker leaves: its rows if it committed, the calls it made, and an abort for each call if it did not. */
  function Left(s: P.State, rows: seq<Row>, handed: seq<nat>, commits: bool): P.State
    requires |rows| == |s.cells|
  {
    s.(cells := seq(|s.cells|, i requires 0 <= i < |s.cells| =>
         P.Cell(if commits then rows[i] else s.cells[i].row,
                s.cells[i].sends + if i in handed then 1 else 0,
                s.cells[i].aborts + if !commits && i in handed then 1 else 0)))
  }

  /** The state right after the poll. */
  ghost predicate Polled(s: P.State, s1: P.State, w: nat, batch: seq<nat>) {
    && w !in s.open && s1.cells == s.cells && s1.seen == s.seen && s1.open.Keys == s.open.Keys + {w}
    && (forall v | v in s.open :: s1.open[v] == s.open[v])
    && s1.open[w].view.Keys == Elements(batch) && s1.open[w].handed == {}
  }

  lemma PollHolds(s: P.State, w: nat, pollTime: int, batch: seq<nat>)
    requires P.Enabled(s, P.Poll(w, Elements(batch), pollTime)) && InRange(batch, |s.cells|) && Distinct(batch)
    ensures var s1 := P.Step(s, P.Poll(w, Elements(batch), pollTime));
      Holds(s1, w, P.Rows(s), batch) && Polled(s, s1, w, batch)
  {
  }

  lemma CommitLeaves(s: P.State, s1: P.State, t: P.State, w: nat, batch: seq<nat>, done: seq<Row>, handed: seq<nat>)
    requires Polled(s, s1, w, batch) && Matches(s1, t, w, done, batch, handed)
    requires forall i :: 0 <= i < |done| && i !in batch ==> done[i] == s.cells[i].row
    ensures P.Step(t, P.Commit(w)) == Left(s, done, handed, true)
  {
    var end, left := P.Step(t, P.Commit(w)), Left(s, done, handed, true);
    forall i | 0 <= i < |s.cells| ensures end.cells[i] == left.cells[i] {
      assert i in t.open[w].view <==> i in batch;
    }
  }

  lemma RollbackLeaves(s: P.State, s1: P.State, t: P.State, w: nat, batch: seq<nat>, done: seq<Row>, handed: seq<nat>)
    requires Polled(s, s1, w, batch) && Matches(s1, t, w, done, batch, handed)
    ensures P.Step(t, P.Rollback(w)) == Left(s, done, handed, false)
  {
    var end, left := P.Step(t, P.Rollback(w)), Left(s, done, handed, false);
    forall i | 0 <= i < |s.cells| ensures end.cells[i] == left.cells[i] {
      assert i in t.open[w].handed <==> i in handed;
    }
  }

  /** A whole batch of the worker, from poll to commit or rollback, is a run of the protocol that leaves this. */
  lemma WorkerRefinesProtocol(s: P.State, w: nat, pollTime: int, batchSize: nat, cs: seq<Circumstance>, cfg: Config,
                              commits: bool)
    requires w !in s.open && batchSize <= |cs|
    ensures var rows := P.Rows(s);
      var locked := set id: nat | id < |s.cells| && !P.Free(s, id);
      var batch := PollPending(rows, locked, pollTime, batchSize);
      && |batch| <= |cs| && InRange(batch, |rows|)
      && P.Reaches(s, WorkerRun(w, pollTime, rows, batch, cs, cfg, commits),
                   Left(s, SendAll(rows, batch, cs, cfg), Handed(rows, batch, cs, cfg), commits))
  {
    var rows := P.Rows(s);
    var locked := set id: nat | id < |s.cells| && !P.Free(s, id);
    var batch := PollPending(rows, locked, pollTime, batchSize);
    PollPendingIsQuery(rows, locked, pollTime, batchSize);
    P.PollSkipsLocked(s, w, pollTime, batchSize);
    BatchRefinesProtocol(s, w, pollTime, batch, cs, cfg, commits);
  }

  lemma BatchRefinesProtocol(s: P.State, w: nat, pollTime: int, batch: seq<nat>, cs: seq<Circumstance>, cfg: Config,
                             commits: bool)
    requires |batch| <= |cs| && InRange(batch, |s.cells|) && Distinct(batch)
    requires P.Enabled(s, P.Poll(w, Elements(batch), pollTime))
    ensures var rows := P.Rows(s);
      P.Reaches(s, WorkerRun(w, pollTime, rows, batch, cs, cfg, commits),
                Left(s, SendAll(rows, batch, cs, cfg), Handed(rows, batch, cs, cfg), commits))
  {
    var rows, poll := P.Rows(s), P.Poll(w, Elements(batch), pollTime);
    var s1, es := P.Step(s, poll), Treats(w, rows, batch, cs, cfg);
    PollHolds(s, w, pollTime, batch);
    P.ReachesOne(s, poll);
    LoopRefinesProtocol(s1, w, rows, batch, cs, cfg);
    var t, end := P.After(s1, es), if commits then P.Commit(w) else P.Rollback(w);
    P.ReachesConcat(s, [poll], s1, es, t);
    var done, handed := SendAll(rows, batch, cs, cfg), Handed(rows, batch, cs, cfg);
    forall i | 0 <= i < |done| && i !in batch ensures done[i] == s.cells[i].row {
      Untouched(rows, batch, cs, cfg, i);
    }
    if commits {
      CommitLeaves(s, s1, t, w, batch, done, handed);
    } else {
      RollbackLeaves(s, s1, t, w, batch, done, handed);
    }
    P.ReachesOne(t, end);
    P.ReachesConcat(s, [poll] + es, t, [end], P.Step(t, end));
  }
}
