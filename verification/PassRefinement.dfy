/** The reconciler's pass is a run of the concurrent outbox: one read, a write per answered query, and the end. */
module PassRefinement {
  import opened Prelude
  import opened Outbox
  import P = OutboxProtocol

  /** The events of pass `p` that write the answers. */
  function Writes(p: nat, ids: seq<nat>, answers: seq<Query>, now: int): seq<P.Event>
    requires |ids| == |answers|
  {
    if ids == [] then []
    else
      var n := |ids| - 1;
      Writes(p, ids[..n], answers[..n], now)
      + match answers[n] case Says(status) => [P.PassWrite(p, ids[n], AnswerOf(status), now)] case _ => []
  }

  /** The retry counters the pass read. */
  function Counters(read: map<nat, Row>, ids: seq<nat>): seq<nat>
    requires forall i :: 0 <= i < |ids| ==> ids[i] in read
  {
    seq(|ids|, i requires 0 <= i < |ids| => read[ids[i]].retryCount)
  }

  /** The pass may write these rows: it has read them, nobody holds them, and each comes once. */
  ghost predicate Ready(t: P.State, p: nat, ids: seq<nat>) {
    && p in t.seen && Distinct(ids) && InRange(ids, |t.cells|)
    && forall i :: 0 <= i < |ids| ==> ids[i] in t.seen[p] && P.Free(t, ids[i])
  }

  /** The rows are `rows`, histories and workers are as before, and what is still to be written is still as read. */
  ghost predicate Wrote(t: P.State, u: P.State, p: nat, rows: seq<Row>, ids: seq<nat>)
    requires p in t.seen
  {
    && u.open == t.open && |u.cells| == |t.cells| == |rows|
    && (forall id: nat | id < |t.cells| :: u.cells[id] == t.cells[id].(row := rows[id]))
    && u.seen.Keys == t.seen.Keys && (forall q | q in t.seen && q != p :: u.seen[q] == t.seen[q])
    && forall id: nat | id in t.seen[p] && id !in ids :: id in u.seen[p] && u.seen[p][id] == t.seen[p][id]
  }

  lemma Prefix(t: P.State, p: nat, ids: seq<nat>)
    requires ids != [] && Ready(t, p, ids)
    ensures var n := |ids| - 1;
      Ready(t, p, ids[..n]) && ids[n] !in ids[..n] && Counters(t.seen[p], ids)[..n] == Counters(t.seen[p], ids[..n])
  {
  }

  /** The loop of the pass is a run of the protocol that writes the same rows. */
  lemma {:induction false} LoopRefinesProtocol(t: P.State, p: nat, ids: seq<nat>, answers: seq<Query>, now: int)
    returns (u: P.State)
    requires Ready(t, p, ids) && |ids| == |answers|
    ensures P.Reaches(t, Writes(p, ids, answers, now), u)
    ensures Wrote(t, u, p, ResolveAll(P.Rows(t), ids, Counters(t.seen[p], ids), answers, now), ids)
  {
    u := t;
    if ids != [] {
      var n := |ids| - 1;
      Prefix(t, p, ids);
      u := LoopRefinesProtocol(t, p, ids[..n], answers[..n], now);
      assert ids == ids[..n] + [ids[n]];
      var rows := ResolveAll(P.Rows(t), ids[..n], Counters(t.seen[p], ids[..n]), answers[..n], now);
      match answers[n] {
        case Says(status) =>
          var e := P.PassWrite(p, ids[n], AnswerOf(status), now);
          P.ReachesOne(u, e);
          P.ReachesConcat(t, Writes(p, ids[..n], answers[..n], now), u, [e], P.Step(u, e));
          u := P.Step(u, e);
        case _ =>
          assert Writes(p, ids, answers, now) == Writes(p, ids[..n], answers[..n], now);
      }
    }
  }

  /** The state after a pass that wrote these rows. */
  function Resolved(s: P.State, rows: seq<Row>): P.State
    requires |rows| == |s.cells|
  {
    s.(cells := seq(|s.cells|, i requires 0 <= i < |s.cells| => s.cells[i].(row := rows[i])))
  }

  /** A pass that nothing interrupts, from its query to its end: the rows it read, resolved, and nothing else. */
  lemma PassRefinesProtocol(s: P.State, p: nat, olderThanMinutes: nat, answers: seq<Query>, now: int)
    requires p !in s.seen
    requires var ids := GetUnknownDeliveries(P.Rows(s), now, olderThanMinutes);
      |ids| == |answers| && forall i :: 0 <= i < |ids| ==> P.Free(s, ids[i])
    ensures var rows := P.Rows(s);
      var ids := GetUnknownDeliveries(rows, now, olderThanMinutes);
      && InRange(ids, |rows|)
      && P.Reaches(s, [P.PassRead(p, Elements(ids))] + Writes(p, ids, answers, now) + [P.PassEnd(p)],
                   Resolved(s, ResolveAll(rows, ids, RetryCounts(rows, ids), answers, now)))
  {
    var rows := P.Rows(s);
    var ids := GetUnknownDeliveries(rows, now, olderThanMinutes);
    GetUnknownDeliveriesIsQuery(rows, now, olderThanMinutes);
    ReadAndResolve(s, p, ids, answers, now);
  }

  function RetryCounts(rows: seq<Row>, ids: seq<nat>): (r: seq<nat>)
    requires InRange(ids, |rows|)
    ensures |r| == |ids|
  {
    seq(|ids|, i requires 0 <= i < |ids| => rows[ids[i]].retryCount)
  }

  lemma ReadIsReady(s: P.State, p: nat, ids: seq<nat>)
    requires p !in s.seen && Distinct(ids) && InRange(ids, |s.cells|)
    requires forall i :: 0 <= i < |ids| ==> s.cells[ids[i]].row.status.UnknownDelivery? && P.Free(s, ids[i])
    ensures P.Enabled(s, P.PassRead(p, Elements(ids)))
    ensures var t := P.Step(s, P.PassRead(p, Elements(ids)));
      && t == s.(seen := t.seen) && t.seen - {p} == s.seen && Ready(t, p, ids)
      && Counters(t.seen[p], ids) == RetryCounts(P.Rows(s), ids)
  {
  }

  /**
   Whatever happened since the pass read: in any state in which it may write these rows, its writes and its end resolve
   them from the counters it had read, and change nothing else.
   */
  lemma WritesRefineProtocol(t: P.State, p: nat, ids: seq<nat>, answers: seq<Query>, now: int)
    requires Ready(t, p, ids) && |ids| == |answers|
    ensures P.Reaches(t, Writes(p, ids, answers, now) + [P.PassEnd(p)],
                      Resolved(t.(seen := t.seen - {p}),
                               ResolveAll(P.Rows(t), ids, Counters(t.seen[p], ids), answers, now)))
  {
    var u := LoopRefinesProtocol(t, p, ids, answers, now);
    P.ReachesOne(u, P.PassEnd(p));
    P.ReachesConcat(t, Writes(p, ids, answers, now), u, [P.PassEnd(p)], P.Step(u, P.PassEnd(p)));
  }

  lemma ReadAndResolve(s: P.State, p: nat, ids: seq<nat>, answers: seq<Query>, now: int)
    requires p !in s.seen && Distinct(ids) && InRange(ids, |s.cells|) && |ids| == |answers|
    requires forall i :: 0 <= i < |ids| ==> s.cells[ids[i]].row.status.UnknownDelivery? && P.Free(s, ids[i])
    ensures P.Reaches(s, [P.PassRead(p, Elements(ids))] + Writes(p, ids, answers, now) + [P.PassEnd(p)],
                      Resolved(s, ResolveAll(P.Rows(s), ids, RetryCounts(P.Rows(s), ids), answers, now)))
  {
    var read, writes := P.PassRead(p, Elements(ids)), Writes(p, ids, answers, now);
    ReadIsReady(s, p, ids);
    var t := P.Step(s, read);
    assert P.Rows(t) == P.Rows(s);
    WritesRefineProtocol(t, p, ids, answers, now);
    var end := Resolved(s, ResolveAll(P.Rows(s), ids, RetryCounts(P.Rows(s), ids), answers, now));
    P.ReachesOne(s, read);
    P.ReachesConcat(s, [read], t, writes + [P.PassEnd(p)], end);
    assert [read] + (writes + [P.PassEnd(p)]) == [read] + writes + [P.PassEnd(p)];
  }
}
