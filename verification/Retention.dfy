/**
 Deduplication over time: whole runs that mix inserts, status changes and retention purges
 (domain/dispatch_service.py, domain/retention.py, domain/models.py).
 */
module Retention {
  import opened Prelude
  import opened Outbox
  import opened Dispatch

  // ---------------------------------------------------------------- the purge job

  /** A delivery callback and the outbox row it belongs to, by its unique key. */
  datatype CallbackRow = CallbackRow(messageKey: string, createdAt: int)

  datatype InboundRow = InboundRow(business: nat, createdAt: int)

  datatype Purges = Purges(sent: nat, failed: nat, callbacks: nat, inbound: nat, total: nat)

  /** ON DELETE CASCADE: a callback goes with its message. */
  function Linked(callbacks: seq<CallbackRow>, rows: seq<Message>): (r: seq<CallbackRow>)
    ensures forall c :: c in r <==> c in callbacks && Holds(rows, c.messageKey)
  {
    if callbacks == [] then []
    else
      var n := |callbacks| - 1;
      assert callbacks == callbacks[..n] + [callbacks[n]];
      Linked(callbacks[..n], rows) + if Holds(rows, callbacks[n].messageKey) then [callbacks[n]] else []
  }

  /** The business filter of the callback purge goes through the messages that are left. */
  predicate OldCallback(c: CallbackRow, rows: seq<Message>, cutoff: int, business: Option<nat>) {
    c.createdAt < cutoff
    && (business.Some? ==>
          exists i :: 0 <= i < |rows| && rows[i].key == c.messageKey && rows[i].row.business == business.value)
  }

  predicate OldInbound(m: InboundRow, cutoff: int, business: Option<nat>) {
    m.createdAt < cutoff && (business.Some? ==> m.business == business.value)
  }

  /** What the callback purge leaves: exactly the callbacks its condition spares. */
  function CallbacksLeft(callbacks: seq<CallbackRow>, rows: seq<Message>, cutoff: int,
                         business: Option<nat>): (r: seq<CallbackRow>)
    ensures |r| <= |callbacks|
    ensures forall c :: c in r <==> c in callbacks && !OldCallback(c, rows, cutoff, business)
  {
    if callbacks == [] then []
    else
      var n := |callbacks| - 1;
      assert callbacks == callbacks[..n] + [callbacks[n]];
      CallbacksLeft(callbacks[..n], rows, cutoff, business)
      + if OldCallback(callbacks[n], rows, cutoff, business) then [] else [callbacks[n]]
  }

  /** What the purge of inbound messages leaves. */
  function InboundLeft(inbound: seq<InboundRow>, cutoff: int, business: Option<nat>): (r: seq<InboundRow>)
    ensures |r| <= |inbound|
    ensures forall m :: m in r <==> m in inbound && !OldInbound(m, cutoff, business)
  {
    if inbound == [] then []
    else
      var n := |inbound| - 1;
      assert inbound == inbound[..n] + [inbound[n]];
      InboundLeft(inbound[..n], cutoff, business)
      + if OldInbound(inbound[n], cutoff, business) then [] else [inbound[n]]
  }

  /** Both purges on the columns: older than the cutoff, and of the business if one is given. */
  lemma OldIsExact(callbacks: seq<CallbackRow>, inbound: seq<InboundRow>, rows: seq<Message>, cutoff: int,
                   business: Option<nat>)
    ensures forall c :: c in CallbacksLeft(callbacks, rows, cutoff, business)
                        <==> c in callbacks
                             && (c.createdAt >= cutoff
                                 || (business.Some? && forall m :: m in rows && m.key == c.messageKey ==>
                                                          m.row.business != business.value))
    ensures forall m :: m in InboundLeft(inbound, cutoff, business)
                        <==> m in inbound && (m.createdAt >= cutoff || (business.Some? && m.business != business.value))
  {
  }

  class RetentionService {
    const table: MessageTable
    var callbacks: seq<CallbackRow>
    var inbound: seq<InboundRow>

    constructor (table: MessageTable, callbacks: seq<CallbackRow>, inbound: seq<InboundRow>)
      ensures this.table == table && this.callbacks == callbacks && this.inbound == inbound
    {
      this.table, this.callbacks, this.inbound := table, callbacks, inbound;
    }

    method PurgeDeliveryCallbacks(days: nat, business: Option<nat>, now: int) returns (deleted: nat)
      modifies this`callbacks
      ensures callbacks == CallbacksLeft(old(callbacks), table.rows, now - days * DAY, business)
      ensures |callbacks| + deleted == |old(callbacks)|
    {
      var before := |callbacks|;
      callbacks := CallbacksLeft(callbacks, table.rows, now - days * DAY, business);
      deleted := before - |callbacks|;
    }

    method PurgeInboundMessages(days: nat, business: Option<nat>, now: int) returns (deleted: nat)
      modifies this`inbound
      ensures inbound == InboundLeft(old(inbound), now - days * DAY, business)
      ensures |inbound| + deleted == |old(inbound)|
    {
      var before := |inbound|;
      inbound := InboundLeft(inbound, now - days * DAY, business);
      deleted := before - |inbound|;
    }

    /** The four purges in order and their total; callbacks that go with their message are not counted. */
    method RunRetentionPurge(business: Option<nat>, now: int) returns (r: Purges)
      modifies this, table
      ensures table.rows == Purged(old(table.rows), business, now)
      ensures var linked := Linked(old(callbacks), table.rows);
        && callbacks == CallbacksLeft(linked, table.rows, now - 30 * DAY, business)
        && |callbacks| + r.callbacks == |linked|
      ensures inbound == InboundLeft(old(inbound), now - 30 * DAY, business) && |inbound| + r.inbound == |old(inbound)|
      ensures |table.rows| + r.sent + r.failed == |old(table.rows)|
      ensures r.total == r.sent + r.failed + r.callbacks + r.inbound
    {
      var sent, failed := table.PurgeMessages(business, now);
      callbacks := Linked(callbacks, table.rows);
      var purgedCallbacks := PurgeDeliveryCallbacks(30, business, now);
      var purgedInbound := PurgeInboundMessages(30, business, now);
      r := Purges(sent, failed, purgedCallbacks, purgedInbound, sent + failed + purgedCallbacks + purgedInbound);
    }
  }

  // ---------------------------------------------------------------- runs over time

  datatype Event =
    | Insert(values: seq<Message>)
    | Update(at: nat, row: Row)          // any worker's or webhook's write
    | Purge(business: Option<nat>)

  datatype Step = Step(now: int, event: Event)

  /** A message as an insert creates it: both timestamps are the insert's. */
  predicate New(m: Message, now: int) {
    m.createdAt == now && m.row.updatedAt == now
  }

  predicate Enabled(rows: seq<Message>, step: Step) {
    match step.event
    case Insert(values) => forall i :: 0 <= i < |values| ==> New(values[i], step.now)
    case Update(at, row) =>
      at < |rows| && row.business == rows[at].row.business && row.transaction == rows[at].row.transaction
    case Purge(_) => true
  }

  function Apply(rows: seq<Message>, step: Step): seq<Message>
    requires Enabled(rows, step)
  {
    match step.event
    case Insert(values) => InsertNew(rows, values)
    case Update(at, row) => rows[at := rows[at].(row := row.(updatedAt := step.now))]
    case Purge(business) => Purged(rows, business, step.now)
  }

  /** The tables before, between and after the steps of a run in which time does not run backwards. */
  ghost predicate IsRun(tables: seq<seq<Message>>, run: seq<Step>) {
    && |tables| == |run| + 1
    && (forall i :: 0 <= i < |run| ==> Enabled(tables[i], run[i]) && tables[i + 1] == Apply(tables[i], run[i]))
    && (forall i, j :: 0 <= i <= j < |run| ==> run[i].now <= run[j].now)
  }

  // ---------------------------------------------------------------- creation and purge of a key

  /** Step `i` creates a row with this key. */
  ghost predicate Creates(tables: seq<seq<Message>>, i: nat, key: string)
    requires i + 1 < |tables|
  {
    !Holds(tables[i], key) && Holds(tables[i + 1], key)
  }

  /** Row `m` is the one step `i` created, purged by step `p`. */
  ghost predicate PurgedAt(tables: seq<seq<Message>>, run: seq<Step>, i: nat, p: nat, m: Message)
    requires IsRun(tables, run) && i < |run| && p < |run|
  {
    && run[p].event.Purge?
    && m in tables[p] && m.createdAt == run[i].now
    && Expired(m, run[p].event.business, run[p].now)
  }

  ghost predicate Alive(rows: seq<Message>, key: string, since: int) {
    exists m :: m in rows && m.key == key && m.createdAt == since && m.row.updatedAt >= since
  }

  /** One step keeps a row alive, or is a purge that its retention period allows. */
  lemma StepKeepsAlive(rows: seq<Message>, step: Step, key: string, since: int) returns (gone: Option<Message>)
    requires Enabled(rows, step) && since <= step.now && Alive(rows, key, since)
    ensures gone.None? ==> Alive(Apply(rows, step), key, since)
    ensures gone.Some? ==>
              && step.event.Purge? && gone.value in rows && gone.value.key == key && gone.value.createdAt == since
              && gone.value.row.updatedAt >= since && Expired(gone.value, step.event.business, step.now)
  {
    var m :| m in rows && m.key == key && m.createdAt == since && m.row.updatedAt >= since;
    var k: nat :| k < |rows| && rows[k] == m;
    var after := Apply(rows, step);
    gone := None;
    match step.event {
      case Insert(values) =>
        InsertIsExact(rows, values);
        assert after[k] == m;
      case Update(at, row) =>
        assert after[k].key == key && after[k].createdAt == since && after[k].row.updatedAt >= since;
      case Purge(business) =>
        PurgeIsExact(rows, business, step.now);
        if Expired(m, business, step.now) {
          gone := Some(m);
        }
    }
  }

  /** Updates and purges bring no key in. */
  lemma OnlyInsertsAddKeys(rows: seq<Message>, step: Step, key: string)
    requires Enabled(rows, step) && !step.event.Insert? && Holds(Apply(rows, step), key)
    ensures Holds(rows, key)
  {
    var after := Apply(rows, step);
    var k :| 0 <= k < |after| && after[k].key == key;
    if step.event.Update? {
      assert rows[k].key == key;
    } else {
      PurgeIsExact(rows, step.event.business, step.now);
      assert after[k] in rows;
    }
  }

  /** The row an insert adds carries the insert's time. */
  lemma CreationIsAlive(rows: seq<Message>, step: Step, key: string)
    requires Enabled(rows, step) && !Holds(rows, key) && Holds(Apply(rows, step), key)
    ensures Alive(Apply(rows, step), key, step.now)
  {
    if !step.event.Insert? {
      OnlyInsertsAddKeys(rows, step, key);
      assert false;
    } else {
      var after := Apply(rows, step);
      var k :| 0 <= k < |after| && after[k].key == key;
      InsertIsExact(rows, step.event.values);
      assert after[..|rows|] == rows;
      assert after[k] in after;
    }
  }

  /** From its creation on, a key is held by the row created then, or that row was purged. */
  lemma {:induction false} HeldOrPurged(tables: seq<seq<Message>>, run: seq<Step>, i: nat, q: nat, key: string)
    returns (gone: Option<(nat, Message)>)
    requires IsRun(tables, run) && i < q <= |run| && Creates(tables, i, key)
    ensures gone.None? ==> Alive(tables[q], key, run[i].now)
    ensures gone.Some? ==>
              && i < gone.value.0 < q && gone.value.1.key == key && gone.value.1.row.updatedAt >= run[i].now
              && PurgedAt(tables, run, i, gone.value.0, gone.value.1)
    decreases q
  {
    gone := None;
    if q == i + 1 {
      CreationIsAlive(tables[i], run[i], key);
    } else {
      gone := HeldOrPurged(tables, run, i, q - 1, key);
      if gone.None? {
        var lost := StepKeepsAlive(tables[q - 1], run[q - 1], key, run[i].now);
        if lost.Some? {
          gone := Some((q - 1, lost.value));
        }
      }
    }
  }

  /**
   Two rows ever created with the same key are created more than 30 days apart, because the first was purged
   in between; if it was purged as SENT or DELIVERED, they are more than 90 days apart.
   */
  lemma CreationsAreFarApart(tables: seq<seq<Message>>, run: seq<Step>, i: nat, j: nat, key: string)
    requires IsRun(tables, run) && i < j < |run|
    requires Creates(tables, i, key) && Creates(tables, j, key)
    ensures exists p: nat, m: Message ::
              && i < p < j && m.key == key && PurgedAt(tables, run, i, p, m)
              && run[j].now - run[i].now > (if m.row.status.Failed? then 30 else 90) * DAY
  {
    var gone := HeldOrPurged(tables, run, i, j, key);
    if gone.None? {
      assert false;
    } else {
      assert run[gone.value.0].now <= run[j].now;
    }
  }

  /** Keys stay unique over any run. */
  lemma {:induction false} KeysStayUnique(tables: seq<seq<Message>>, run: seq<Step>, i: nat)
    requires IsRun(tables, run) && UniqueKeys(tables[0]) && i <= |run|
    ensures UniqueKeys(tables[i])
  {
    if i > 0 {
      KeysStayUnique(tables, run, i - 1);
      StepKeepsUnique(tables[i - 1], run[i - 1]);
    }
  }

  lemma StepKeepsUnique(rows: seq<Message>, step: Step)
    requires Enabled(rows, step) && UniqueKeys(rows)
    ensures UniqueKeys(Apply(rows, step))
  {
    match step.event {
      case Insert(values) => InsertIsExact(rows, values);
      case Update(_, _) =>
      case Purge(business) => PurgeIsExact(rows, business, step.now);
    }
  }

  /** The bound is tight: a message that fails at once can be back one second after the thirty days. */
  lemma ThirtyDaysIsTight(m: Message, failed: Row)
    requires New(m, 0) && failed.status.Failed? && failed.business == m.row.business
             && failed.transaction == m.row.transaction
    ensures var late := 30 * DAY + 1;
            var again := m.(createdAt := late, row := m.row.(updatedAt := late));
            var tables := [[], [m], [m.(row := failed.(updatedAt := 0))], [], [again]];
            var run := [Step(0, Insert([m])), Step(0, Update(0, failed)), Step(late, Purge(None)),
                        Step(late, Insert([again]))];
      IsRun(tables, run) && Creates(tables, 0, m.key) && Creates(tables, 3, m.key)
  {
    var late := 30 * DAY + 1;
    var again := m.(createdAt := late, row := m.row.(updatedAt := late));
    var dead := m.(row := failed.(updatedAt := 0));
    InsertOne(m, 0);
    InsertOne(again, late);
    PurgeOne(dead, late);
    FourSteps([], Step(0, Insert([m])), [m], Step(0, Update(0, failed)), [dead], Step(late, Purge(None)), [],
              Step(late, Insert([again])), [again]);
    assert [m][0].key == m.key && [again][0].key == m.key;
  }

  /** A run of four steps, step by step. */
  lemma FourSteps(t0: seq<Message>, s0: Step, t1: seq<Message>, s1: Step, t2: seq<Message>, s2: Step,
                  t3: seq<Message>, s3: Step, t4: seq<Message>)
    requires Takes(t0, s0, t1) && Takes(t1, s1, t2) && Takes(t2, s2, t3) && Takes(t3, s3, t4)
    requires s0.now <= s1.now <= s2.now <= s3.now
    ensures IsRun([t0, t1, t2, t3, t4], [s0, s1, s2, s3])
  {
    var tables, run := [t0, t1, t2, t3, t4], [s0, s1, s2, s3];
    forall i | 0 <= i < 4 ensures Takes(tables[i], run[i], tables[i + 1]) {
    }
  }

  predicate Takes(before: seq<Message>, step: Step, after: seq<Message>) {
    Enabled(before, step) && Apply(before, step) == after
  }

  lemma InsertOne(m: Message, now: int)
    requires New(m, now)
    ensures Takes([], Step(now, Insert([m])), [m])
  {
    InsertIntoEmpty(m);
  }

  lemma PurgeOne(m: Message, now: int)
    requires Expired(m, None, now)
    ensures Takes([m], Step(now, Purge(None)), [])
  {
    PurgeOfExpired(m, now);
  }

  lemma InsertIntoEmpty(m: Message)
    ensures InsertNew([], [m]) == [m]
  {
  }

  lemma PurgeOfExpired(m: Message, now: int)
    requires Expired(m, None, now)
    ensures Purged([m], None, now) == []
  {
    SurvivingOne(m, {Sent, Delivered}, now - 90 * DAY);
    SurvivingOne(m, {Failed}, now - 30 * DAY);
  }

  lemma SurvivingOne(m: Message, statuses: set<Status>, cutoff: int)
    ensures Surviving([m], statuses, cutoff, None) == if Doomed(m, statuses, cutoff, None) then [] else [m]
  {
  }
}
