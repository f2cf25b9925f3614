/**
 The outbox row, its status machine and its queries (domain/outbox.py, domain/reconciliation_service.py). The table is
 a sequence of rows, a row's id its position. Times are integer seconds.
 */
module Outbox {
  import opened Prelude

  datatype Status = Pending | Sending | Sent | Delivered | Failed | UnknownDelivery | Suppressed

  datatype Row = Row(
    business: nat,
    transaction: Option<nat>,
    status: Status,
    segments: nat,
    retryCount: nat,
    maxRetries: nat,
    scheduledAt: Option<int>,
    updatedAt: int,
    sentAt: Option<int>,
    deliveredAt: Option<int>,
    failedAt: Option<int>,
    nextRetryAt: Option<int>,
    providerId: Option<string>)

  const MINUTE := 60

  /** VALID_TRANSITIONS. */
  function Allowed(from: Status): set<Status> {
    match from
    case Pending => {Sending}
    case Sending => {Sent, Failed, UnknownDelivery}
    case Failed => {Pending}
    case UnknownDelivery => {Sent, Failed, Pending}
    case Sent | Delivered | Suppressed => {}
  }

  /** Back-off in minutes before the attempt numbered `retry` (1, 2, 3 and more). */
  function BackoffMinutes(retry: nat): nat
    requires retry >= 1
  {
    if retry == 1 then 1 else if retry == 2 then 5 else 15
  }

  /** What `transition_status` makes of a row, or the exception it raises. */
  function Transition(row: Row, to: Status, provider: string, now: int): Result<Row> {
    if to !in Allowed(row.status) then
      Err("Invalid transition")
    else
      var moved := row.(status := to, updatedAt := now);
      match to
      case Sent =>
        Ok(moved.(sentAt := Some(now), providerId := if provider == "" then row.providerId else Some(provider)))
      case Failed => Ok(moved.(failedAt := Some(now)))
      case Pending =>
        if row.status.Failed? then
          Ok(moved.(retryCount := row.retryCount + 1,
                    nextRetryAt := Some(now + MINUTE * BackoffMinutes(row.retryCount + 1))))
        else
          Ok(moved)
      case _ => Ok(moved)
  }

  /** The status machine on the columns: which moves there are, and what each writes and leaves. */
  lemma TransitionWrites(row: Row, to: Status, provider: string, now: int)
    ensures Transition(row, to, provider, now).Ok?
            <==> (row.status, to) in {(Pending, Sending), (Sending, Sent), (Sending, Failed),
                                      (Sending, UnknownDelivery), (Failed, Pending), (UnknownDelivery, Sent),
                                      (UnknownDelivery, Failed), (UnknownDelivery, Pending)}
    ensures Transition(row, to, provider, now).Ok? ==>
              var r, retries := Transition(row, to, provider, now).value, row.status == Failed;
              && r.status == to && r.updatedAt == now
              && r.sentAt == (if to == Sent then Some(now) else row.sentAt)
              && r.failedAt == (if to == Failed then Some(now) else row.failedAt)
              && r.providerId == (if to == Sent && provider != "" then Some(provider) else row.providerId)
              && r.retryCount == row.retryCount + (if retries then 1 else 0)
              && r.nextRetryAt == (if !retries then row.nextRetryAt
                                   else if row.retryCount == 0 then Some(now + 60)
                                   else if row.retryCount == 1 then Some(now + 300) else Some(now + 900))
              && r.deliveredAt == row.deliveredAt && r.scheduledAt == row.scheduledAt && r.segments == row.segments
              && r.maxRetries == row.maxRetries && r.business == row.business && r.transaction == row.transaction
  {
  }

  /** The row after a successful claim. */
  function Claimed(row: Row, now: int): Row {
    row.(status := Sending, updatedAt := now)
  }

  // ---------------------------------------------------------------- one send attempt

  /** How the send worker's treatment of one claimed message can go. */
  datatype Outcome =
    | NoContact                                          // contact missing or opted out
    | Deferred                                           // quiet hours, or daily budget used up
    | Crashed                                            // an exception before the provider call
    | CrashedInSend                                      // the provider call itself raised
    | Accepted(provider: string, segments: Option<nat>)  // segments only when a price came back
    | Ambiguous
    | Refused

  predicate CallsProvider(o: Outcome) {
    o.CrashedInSend? || o.Accepted? || o.Ambiguous? || o.Refused?
  }

  /** The row after claim, send and transition; a row that is not PENDING is not claimed. */
  function Attempt(row: Row, o: Outcome, now: int): Row {
    if !row.status.Pending? then
      row
    else
      var claimed := Claimed(row, now);
      match o
      case NoContact | Refused => Transition(claimed, Failed, "", now).value
      case Deferred => claimed.(status := Pending)
      case Crashed | CrashedInSend => claimed
      case Ambiguous => Transition(claimed, UnknownDelivery, "", now).value
      case Accepted(provider, segments) =>
        var sent := Transition(claimed, Sent, provider, now).value;
        if segments.Some? then sent.(segments := segments.value) else sent
  }

  // ---------------------------------------------------------------- queries

  /** Position order of two candidate rows: by `key`, ties by id. */
  predicate Before(key: nat -> int, a: nat, b: nat) {
    key(a) < key(b) || (key(a) == key(b) && a <= b)
  }

  lemma {:induction false} LeastExists(key: nat -> int, ids: set<nat>) returns (m: nat)
    requires ids != {}
    ensures m in ids && forall x: nat | x in ids :: Before(key, m, x)
  {
    m :| m in ids;
    var first, rest := m, ids - {m};
    if rest != {} {
      var n := LeastExists(key, rest);
      if !Before(key, m, n) {
        m := n;
      }
    }
    forall x: nat | x in ids ensures Before(key, m, x) {
      assert x == first || x in rest;
    }
  }

  /** SELECT ... ORDER BY key LIMIT limit over the candidate ids. */
  function Select(key: nat -> int, ids: set<nat>, limit: nat): seq<nat> {
    if ids == {} || limit == 0 then
      []
    else
      assert exists m: nat :: m in ids && forall x: nat | x in ids :: Before(key, m, x) by {
        var m := LeastExists(key, ids);
      }
      var m: nat :| m in ids && forall x: nat | x in ids :: Before(key, m, x);
      [m] + Select(key, ids - {m}, limit - 1)
  }

  /** `out` is what ORDER BY key LIMIT limit may return: key order, and whatever is left out comes later. */
  ghost predicate IsQuery(key: nat -> int, ids: set<nat>, limit: nat, out: seq<nat>) {
    && |out| <= limit
    && (forall i :: 0 <= i < |out| ==> out[i] in ids)
    && (forall i, j :: 0 <= i < j < |out| ==> out[i] != out[j] && Before(key, out[i], out[j]))
    && (forall x: nat | x in ids && x !in out ::
          |out| == limit && forall i :: 0 <= i < |out| ==> Before(key, out[i], x))
  }

  lemma {:induction false} SelectIsQuery(key: nat -> int, ids: set<nat>, limit: nat)
    ensures IsQuery(key, ids, limit, Select(key, ids, limit))
  {
    if ids != {} && limit != 0 {
      var out := Select(key, ids, limit);
      var m, rest := out[0], out[1..];
      assert m in ids && forall x: nat | x in ids :: Before(key, m, x);
      assert rest == Select(key, ids - {m}, limit - 1);
      SelectIsQuery(key, ids - {m}, limit - 1);
      forall i | 0 < i < |out| ensures out[i] in ids && out[i] != m {
        assert out[i] == rest[i - 1];
      }
      forall i, j | 0 <= i < j < |out| ensures out[i] != out[j] && Before(key, out[i], out[j]) {
        if i > 0 {
          assert out[i] == rest[i - 1] && out[j] == rest[j - 1];
        }
      }
      forall x: nat | x in ids && x !in out
        ensures |out| == limit && forall i :: 0 <= i < |out| ==> Before(key, out[i], x)
      {
        assert x != out[0] && x !in rest;
        forall i | 0 <= i < |out| ensures Before(key, out[i], x) {
          if i > 0 {
            assert out[i] == rest[i - 1];
          }
        }
      }
    }
  }

  /** The WHERE clause of `poll_pending`: a NULL scheduled_at never satisfies it. */
  predicate Pollable(row: Row, now: int) {
    && row.status.Pending?
    && row.scheduledAt.Some?
    && row.scheduledAt.value <= now
    && row.retryCount < row.maxRetries
  }

  function ScheduleKey(rows: seq<Row>): nat -> int {
    (id: nat) => if id < |rows| && rows[id].scheduledAt.Some? then rows[id].scheduledAt.value else 0
  }

  function Candidates(rows: seq<Row>, locked: set<nat>, now: int): set<nat> {
    set id: nat | id < |rows| && Pollable(rows[id], now) && id !in locked
  }

  /** `poll_pending`: FOR UPDATE SKIP LOCKED leaves out every id in `locked`. */
  function PollPending(rows: seq<Row>, locked: set<nat>, now: int, batchSize: nat): seq<nat> {
    Select(ScheduleKey(rows), Candidates(rows, locked, now), batchSize)
  }

  /**
   The poll on the columns: PENDING, due by now, retry budget left, not locked; the oldest first; and none of these is
   left out unless the batch is full of rows due no later.
   */
  lemma PollPendingIsQuery(rows: seq<Row>, locked: set<nat>, now: int, batchSize: nat)
    ensures var out := PollPending(rows, locked, now, batchSize);
      && Distinct(out)
      && |out| <= batchSize
      && (forall i :: 0 <= i < |out| ==>
            && out[i] < |rows| && out[i] !in locked && rows[out[i]].status == Pending
            && rows[out[i]].scheduledAt.Some? && rows[out[i]].scheduledAt.value <= now
            && rows[out[i]].retryCount < rows[out[i]].maxRetries)
      && (forall i, j :: 0 <= i < j < |out| ==> rows[out[i]].scheduledAt.value <= rows[out[j]].scheduledAt.value)
      && (forall id: nat | id < |rows| && id !in locked && id !in out ::
            rows[id].status == Pending && rows[id].scheduledAt.Some? && rows[id].scheduledAt.value <= now
            && rows[id].retryCount < rows[id].maxRetries ==>
              |out| == batchSize
              && forall i :: 0 <= i < |out| ==> rows[out[i]].scheduledAt.value <= rows[id].scheduledAt.value)
  {
    var out := PollPending(rows, locked, now, batchSize);
    var key := ScheduleKey(rows);
    SelectIsQuery(key, Candidates(rows, locked, now), batchSize);
    forall i | 0 <= i < |out|
      ensures out[i] in Candidates(rows, locked, now) && key(out[i]) == rows[out[i]].scheduledAt.value
    {
    }
    forall id: nat | id < |rows| && Pollable(rows[id], now) && id !in locked && id !in out
      ensures |out| == batchSize
      ensures forall i :: 0 <= i < |out| ==> rows[out[i]].scheduledAt.value <= rows[id].scheduledAt.value
    {
      assert id in Candidates(rows, locked, now);
      assert forall i :: 0 <= i < |out| ==> Before(key, out[i], id);
    }
    assert forall i, j :: 0 <= i < j < |out| ==> Before(key, out[i], out[j]);
  }

  /** A row is due from its scheduled time on and not before: once a poll returns it, every later one with room does. */
  lemma DueStaysDue(rows: seq<Row>, locked: set<nat>, id: nat, now: int, at: int, batchSize: nat)
    requires id in PollPending(rows, locked, now, batchSize)
    ensures id < |rows| && rows[id].scheduledAt.Some?
    ensures |PollPending(rows, locked, at, batchSize)| < batchSize ==>
              (id in PollPending(rows, locked, at, batchSize) <==> rows[id].scheduledAt.value <= at)
    ensures at >= now && |PollPending(rows, locked, at, batchSize)| < batchSize ==>
              id in PollPending(rows, locked, at, batchSize)
  {
    PollPendingIsQuery(rows, locked, now, batchSize);
    PollPendingIsQuery(rows, locked, at, batchSize);
  }

  const RECONCILE_LIMIT := 100

  predicate Unresolved(row: Row, cutoff: int) {
    row.status.UnknownDelivery? && row.updatedAt <= cutoff
  }

  function UpdateKey(rows: seq<Row>): nat -> int {
    (id: nat) => if id < |rows| then rows[id].updatedAt else 0
  }

  function UnresolvedIds(rows: seq<Row>, cutoff: int): set<nat> {
    set id: nat | id < |rows| && Unresolved(rows[id], cutoff)
  }

  /** `get_unknown_deliveries`: no row lock is taken. */
  function GetUnknownDeliveries(rows: seq<Row>, now: int, olderThanMinutes: nat): seq<nat> {
    var cutoff := now - MINUTE * olderThanMinutes;
    Select(UpdateKey(rows), UnresolvedIds(rows, cutoff), RECONCILE_LIMIT)
  }

  lemma GetUnknownDeliveriesIsQuery(rows: seq<Row>, now: int, olderThanMinutes: nat)
    ensures var out := GetUnknownDeliveries(rows, now, olderThanMinutes);
      && Distinct(out)
      && |out| <= 100
      && (forall i, j :: 0 <= i < j < |out| ==>
            out[i] < |rows| && out[j] < |rows| && rows[out[i]].updatedAt <= rows[out[j]].updatedAt)
      && (forall i :: 0 <= i < |out| ==>
            out[i] < |rows| && rows[out[i]].status == UnknownDelivery
            && now - rows[out[i]].updatedAt >= 60 * olderThanMinutes)
      && (forall id: nat | id < |rows| && id !in out ::
            rows[id].status == UnknownDelivery && now - rows[id].updatedAt >= 60 * olderThanMinutes ==>
              |out| == 100 && forall i :: 0 <= i < |out| ==> rows[out[i]].updatedAt <= rows[id].updatedAt)
  {
    var cutoff := now - MINUTE * olderThanMinutes;
    var out, key := GetUnknownDeliveries(rows, now, olderThanMinutes), UpdateKey(rows);
    SelectIsQuery(key, UnresolvedIds(rows, cutoff), RECONCILE_LIMIT);
    forall i | 0 <= i < |out| ensures out[i] in UnresolvedIds(rows, cutoff) && key(out[i]) == rows[out[i]].updatedAt {
    }
    forall id: nat | id < |rows| && Unresolved(rows[id], cutoff) && id !in out
      ensures |out| == RECONCILE_LIMIT && forall i :: 0 <= i < |out| ==> rows[out[i]].updatedAt <= rows[id].updatedAt
    {
      assert id in UnresolvedIds(rows, cutoff);
      assert forall i :: 0 <= i < |out| ==> Before(key, out[i], id);
    }
    assert forall i, j :: 0 <= i < j < |out| ==> Before(key, out[i], out[j]);
  }

  // ---------------------------------------------------------------- reconciliation of one row

  /** The statuses a provider query can answer with. */
  datatype Answer = NotFound | IsSent | IsDelivered | IsFailed | Other

  /** One message of a reconciler pass: not queried, the query raised, or it answered. */
  datatype Query = NoClientId | Raises | Says(status: string)

  function AnswerOf(status: string): Answer {
    if status == "not_found" then NotFound
    else if status in ["sent", "queued", "accepted"] then IsSent
    else if status == "delivered" then IsDelivered
    else if status in ["failed", "undelivered", "rejected"] then IsFailed
    else Other
  }

  /**
   `reconcile_unknown_delivery` as an UPDATE of the stored row. The retry counter written is one
   more than the counter the pass had read, whatever the stored counter is by then.
   */
  function Resolve(row: Row, readRetry: nat, answer: Answer, now: int): Row {
    var touched := row.(updatedAt := now);
    match answer
    case NotFound => touched.(status := Pending, retryCount := readRetry + 1)
    case IsSent => touched.(status := Sent, sentAt := if row.sentAt.Some? then row.sentAt else Some(now))
    case IsDelivered => touched.(status := Delivered, deliveredAt := Some(now))
    case IsFailed => touched.(status := Failed, failedAt := Some(now))
    case Other => touched
  }

  // ---------------------------------------------------------------- the table, updated in place

  /** One database session's view of outbound_messages. */
  class OutboxTable {
    var rows: seq<Row>

    constructor (rows: seq<Row>)
      ensures this.rows == rows
    {
      this.rows := rows;
    }

    /** PENDING -> SENDING, or nothing if the row is no longer PENDING. */
    method ClaimForSending(id: nat, now: int) returns (claimed: bool)
      requires id < |rows|
      modifies this
      ensures claimed == old(rows[id].status.Pending?)
      ensures rows == if claimed then old(rows)[id := Claimed(old(rows)[id], now)] else old(rows)
    {
      if !rows[id].status.Pending? {
        return false;
      }
      var row := rows[id].(status := Sending);
      row := row.(updatedAt := now);
      rows := rows[id := row];
      return true;
    }

    /** Raises, leaving the table alone, exactly when the target is not allowed. */
    method TransitionStatus(id: nat, to: Status, provider: string, now: int) returns (r: Result<Row>)
      requires id < |rows|
      modifies this
      ensures r == Transition(old(rows)[id], to, provider, now)
      ensures rows == if r.Ok? then old(rows)[id := r.value] else old(rows)
    {
      var current := rows[id].status;
      if to !in Allowed(current) {
        return Err("Invalid transition");
      }
      var row := rows[id].(status := to, updatedAt := now);
      if to == Sent {
        row := row.(sentAt := Some(now));
        if provider != "" {
          row := row.(providerId := Some(provider));
        }
      } else if to == Failed {
        row := row.(failedAt := Some(now));
      } else if to == Pending && current == Failed {
        row := row.(retryCount := row.retryCount + 1);
        var minutes := [1, 5, 15][Min(row.retryCount - 1, 2)];
        row := row.(nextRetryAt := Some(now + MINUTE * minutes));
      }
      rows := rows[id := row];
      return Ok(row);
    }

    /** SENDING -> PENDING without going through `transition_status`. */
    method Release(id: nat, now: int)
      requires id < |rows|
      modifies this
      ensures rows == old(rows)[id := old(rows)[id].(status := Pending, updatedAt := now)]
    {
      rows := rows[id := rows[id].(status := Pending, updatedAt := now)];
    }

    method SetSegments(id: nat, segments: nat)
      requires id < |rows|
      modifies this
      ensures rows == old(rows)[id := old(rows)[id].(segments := segments)]
    {
      rows := rows[id := rows[id].(segments := segments)];
    }

    /** Rollback to the rows the transaction started from. */
    method Restore(snapshot: seq<Row>)
      modifies this
      ensures rows == snapshot
    {
      rows := snapshot;
    }

    /** One reconciler pass over rows it read earlier: skips what it cannot query, writes the rest. */
    method ReconcileUnknown(ids: seq<nat>, read: seq<nat>, answers: seq<Query>, now: int)
      returns (resolved: nat, notFound: nat, failed: nat, errors: nat)
      requires |ids| == |read| == |answers|
      requires InRange(ids, |rows|)
      modifies this
      ensures |rows| == |old(rows)|
      ensures rows == ResolveAll(old(rows), ids, read, answers, now)
      ensures Distinct(ids) ==> PassWrote(old(rows), rows, ids, read, answers, now)
      ensures resolved == CountOf(answers, IntoResolved) && notFound == CountOf(answers, IntoNotFound)
      ensures failed == CountOf(answers, IntoFailed) && errors == CountOf(answers, IntoErrors)
    {
      resolved, notFound, failed, errors := 0, 0, 0, 0;
      var i := 0;
      ghost var start := rows;
      while i < |ids|
        invariant 0 <= i <= |ids|
        invariant |rows| == |start|
        invariant rows == ResolveAll(start, ids[..i], read[..i], answers[..i], now)
        invariant resolved == CountOf(answers[..i], IntoResolved) && notFound == CountOf(answers[..i], IntoNotFound)
        invariant failed == CountOf(answers[..i], IntoFailed) && errors == CountOf(answers[..i], IntoErrors)
      {
        match answers[i] {
          case NoClientId =>
          case Raises => errors := errors + 1;
          case Says(status) =>
            rows := rows[ids[i] := Resolve(rows[ids[i]], read[i], AnswerOf(status), now)];
            if status == "not_found" {
              notFound := notFound + 1;
            } else if status in ["sent", "delivered"] {
              resolved := resolved + 1;
            } else {
              failed := failed + 1;
            }
        }
        assert ids[..i + 1][..i] == ids[..i] && read[..i + 1][..i] == read[..i]
            && answers[..i + 1][..i] == answers[..i];
        i := i + 1;
      }
      assert ids[..i] == ids && read[..i] == read && answers[..i] == answers;
      if Distinct(ids) {
        PassWritesAnswers(start, ids, read, answers, now);
      }
    }
  }

  predicate InRange(ids: seq<nat>, n: nat) {
    forall i :: 0 <= i < |ids| ==> ids[i] < n
  }

  /** The counter of a pass that a message goes into. An answer other than these three counts as failed. */
  datatype Counter = IntoResolved | IntoNotFound | IntoFailed | IntoErrors | Uncounted

  function CounterOf(q: Query): Counter {
    match q
    case NoClientId => Uncounted
    case Raises => IntoErrors
    case Says(status) =>
      if status == "not_found" then IntoNotFound
      else if status in ["sent", "delivered"] then IntoResolved
      else IntoFailed
  }

  function CountOf(answers: seq<Query>, c: Counter): nat {
    if answers == [] then 0
    else CountOf(answers[..|answers| - 1], c) + if CounterOf(answers[|answers| - 1]) == c then 1 else 0
  }

  /** Every message of a pass is in exactly one counter, or was skipped without a query. */
  lemma {:induction false} CountersAddUp(answers: seq<Query>)
    ensures CountOf(answers, IntoResolved) + CountOf(answers, IntoNotFound) + CountOf(answers, IntoFailed)
            + CountOf(answers, IntoErrors) + CountOf(answers, Uncounted) == |answers|
  {
    if answers != [] {
      CountersAddUp(answers[..|answers| - 1]);
    }
  }

  /** Which text goes into which counter; "queued" and "accepted" count as failed although the row becomes SENT. */
  lemma OneMoreAnswered(answers: seq<Query>, q: Query)
    ensures CountOf(answers + [q], IntoNotFound)
            == CountOf(answers, IntoNotFound) + if q == Says("not_found") then 1 else 0
    ensures CountOf(answers + [q], IntoResolved)
            == CountOf(answers, IntoResolved) + if q in [Says("sent"), Says("delivered")] then 1 else 0
    ensures CountOf(answers + [q], IntoErrors) == CountOf(answers, IntoErrors) + if q == Raises then 1 else 0
    ensures CountOf(answers + [q], IntoFailed)
            == CountOf(answers, IntoFailed)
               + if q.Says? && q.status !in ["not_found", "sent", "delivered"] then 1 else 0
    ensures forall c :: CountOf([], c) == 0
  {
  }

  /** The rows after a pass wrote its answers in order. */
  function ResolveAll(rows: seq<Row>, ids: seq<nat>, read: seq<nat>, answers: seq<Query>, now: int): (r: seq<Row>)
    requires |ids| == |read| == |answers|
    requires InRange(ids, |rows|)
    ensures |r| == |rows|
  {
    if ids == [] then
      rows
    else
      var n := |ids| - 1;
      var done := ResolveAll(rows, ids[..n], read[..n], answers[..n], now);
      if answers[n].Says? then
        done[ids[n] := Resolve(done[ids[n]], read[n], AnswerOf(answers[n].status), now)]
      else
        done
  }

  /** What a query leaves of a row, by the text it answered with; the row is untouched if there was no answer. */
  predicate AnswerWrote(q: Query, was: Row, read: nat, row: Row, now: int) {
    if !q.Says? then row == was
    else
      var t := q.status;
      && (t == "not_found" ==> row == was.(status := Pending, retryCount := read + 1, updatedAt := now))
      && (t == "sent" || t == "queued" || t == "accepted" ==>
            row == was.(status := Sent, sentAt := if was.sentAt.Some? then was.sentAt else Some(now), updatedAt := now))
      && (t == "delivered" ==> row == was.(status := Delivered, deliveredAt := Some(now), updatedAt := now))
      && (t == "failed" || t == "undelivered" || t == "rejected" ==>
            row == was.(status := Failed, failedAt := Some(now), updatedAt := now))
      && (t !in ["not_found", "sent", "queued", "accepted", "delivered", "failed", "undelivered", "rejected"] ==>
            row == was.(updatedAt := now))
  }

  /** What a pass over distinct rows leaves: every answer in its own row, all other rows as they were. */
  ghost predicate PassWrote(rows: seq<Row>, after: seq<Row>, ids: seq<nat>, read: seq<nat>, answers: seq<Query>,
                            now: int)
    requires |ids| == |read| == |answers| && |rows| == |after| && InRange(ids, |rows|)
  {
    && (forall id: nat | id < |rows| && id !in ids :: after[id] == rows[id])
    && forall i :: 0 <= i < |ids| ==> AnswerWrote(answers[i], rows[ids[i]], read[i], after[ids[i]], now)
  }

  lemma ResolveWrites(was: Row, read: nat, text: string, now: int)
    ensures AnswerWrote(Says(text), was, read, Resolve(was, read, AnswerOf(text), now), now)
  {
  }

  lemma {:induction false} PassWritesAnswers(rows: seq<Row>, ids: seq<nat>, read: seq<nat>, answers: seq<Query>,
                                             now: int)
    requires |ids| == |read| == |answers| && InRange(ids, |rows|) && Distinct(ids)
    ensures PassWrote(rows, ResolveAll(rows, ids, read, answers, now), ids, read, answers, now)
  {
    if ids != [] {
      var n := |ids| - 1;
      PassWritesAnswers(rows, ids[..n], read[..n], answers[..n], now);
      OneMoreAnswer(rows, ResolveAll(rows, ids[..n], read[..n], answers[..n], now), ids, read, answers, now);
    }
  }

  lemma OneMoreAnswer(rows: seq<Row>, done: seq<Row>, ids: seq<nat>, read: seq<nat>, answers: seq<Query>, now: int)
    requires 0 < |ids| == |read| == |answers| && |rows| == |done| && InRange(ids, |rows|) && Distinct(ids)
    requires var n := |ids| - 1; PassWrote(rows, done, ids[..n], read[..n], answers[..n], now)
    ensures var n := |ids| - 1;
      var row := if answers[n].Says? then Resolve(done[ids[n]], read[n], AnswerOf(answers[n].status), now)
                 else done[ids[n]];
      PassWrote(rows, done[ids[n] := row], ids, read, answers, now)
  {
    var n, id := |ids| - 1, ids[|ids| - 1];
    assert id !in ids[..n] && done[id] == rows[id];
    var row := if answers[n].Says? then Resolve(done[id], read[n], AnswerOf(answers[n].status), now) else done[id];
    assert AnswerWrote(answers[n], rows[id], read[n], row, now) by {
      if answers[n].Says? {
        ResolveWrites(rows[id], read[n], answers[n].status, now);
      }
    }
    forall i | 0 <= i < n ensures AnswerWrote(answers[i], rows[ids[i]], read[i], done[ids[i]], now) && ids[i] != id {
      assert ids[..n][i] == ids[i] && read[..n][i] == read[i] && answers[..n][i] == answers[i];
    }
    forall x: nat | x < |rows| && x !in ids ensures done[x] == rows[x] {
      assert x !in ids[..n];
    }
  }
}
