/**
 Inserting into the outbox (domain/dispatch_service.py) and purging it (domain/retention.py). The message_key
 column is unique; a purge frees the keys of the rows it deletes.
 */
module Dispatch {
  import opened Prelude
  import opened Outbox
  import K = MessageKeys

  /** ReminderCandidate, with the columns the insert uses. */
  datatype Candidate = Candidate(business: nat, txn: Option<nat>, customer: nat, contact: nat, kind: K.ReminderType,
                                 key: string)

  /** A row of outbound_messages: what never changes, and the columns that do. */
  datatype Message = Message(key: string, contact: nat, kind: K.ReminderType, createdAt: int, row: Row)

  const DAY := 86400

  // ---------------------------------------------------------------- inserting

  /** The values inserted for one candidate. */
  function Inserted(c: Candidate, scheduledAt: Option<int>, maxRetries: nat, now: int): Message {
    Message(c.key, c.contact, c.kind, now,
            Row(c.business, c.txn, Pending, 1, 0, maxRetries,
                Some(if scheduledAt.Some? then scheduledAt.value else now),
                now, None, None, None, None, None))
  }

  function AllInserted(cs: seq<Candidate>, scheduledAt: Option<int>, maxRetries: nat, now: int): (r: seq<Message>)
    ensures |r| == |cs|
  {
    seq(|cs|, i requires 0 <= i < |cs| => Inserted(cs[i], scheduledAt, maxRetries, now))
  }

  predicate Holds(rows: seq<Message>, key: string) {
    exists i :: 0 <= i < |rows| && rows[i].key == key
  }

  /** INSERT ... ON CONFLICT (message_key) DO NOTHING, value after value. */
  function InsertNew(rows: seq<Message>, values: seq<Message>): seq<Message> {
    if values == [] then rows
    else
      var n := |values| - 1;
      var done := InsertNew(rows, values[..n]);
      if Holds(done, values[n].key) then done else done + [values[n]]
  }

  ghost predicate UniqueKeys(rows: seq<Message>) {
    forall i, j :: 0 <= i < j < |rows| ==> rows[i].key != rows[j].key
  }

  /** What an insert leaves: the old rows in place, then new rows, one for every key that was missing. */
  lemma {:induction false} InsertIsExact(rows: seq<Message>, values: seq<Message>)
    ensures var after := InsertNew(rows, values);
      && rows <= after && |after| <= |rows| + |values|
      && (forall i :: |rows| <= i < |after| ==> after[i] in values && !Holds(rows, after[i].key))
      && (forall key: string :: Holds(after, key) <==> Holds(rows, key) || Holds(values, key))
      && (UniqueKeys(rows) ==> UniqueKeys(after))
  {
    if values != [] {
      var n := |values| - 1;
      InsertIsExact(rows, values[..n]);
      var done, after := InsertNew(rows, values[..n]), InsertNew(rows, values);
      assert after[|done|..] == if Holds(done, values[n].key) then [] else [values[n]];
      forall key: string ensures Holds(after, key) <==> Holds(done, key) || values[n].key == key {
        HoldsSnoc(done, values[n], key);
      }
      forall key: string ensures Holds(values, key) <==> Holds(values[..n], key) || values[n].key == key {
        HoldsSnoc(values[..n], values[n], key);
        assert values == values[..n] + [values[n]];
      }
    }
  }

  lemma HoldsSnoc(rows: seq<Message>, m: Message, key: string)
    ensures Holds(rows + [m], key) <==> Holds(rows, key) || m.key == key
  {
    if Holds(rows, key) {
      var i :| 0 <= i < |rows| && rows[i].key == key;
      assert (rows + [m])[i].key == key;
    }
    assert (rows + [m])[|rows|] == m;
  }

  /** On the columns: an inserted row is a fresh PENDING message of its candidate, due at the given time or at once. */
  lemma InsertWrites(rows: seq<Message>, cs: seq<Candidate>, scheduledAt: Option<int>, maxRetries: nat, now: int,
                     k: nat)
    requires |rows| <= k < |InsertNew(rows, AllInserted(cs, scheduledAt, maxRetries, now))|
    ensures var m := InsertNew(rows, AllInserted(cs, scheduledAt, maxRetries, now))[k];
      exists c :: c in cs
        && m.key == c.key && m.contact == c.contact && m.kind == c.kind && m.createdAt == now
        && m.row.business == c.business && m.row.transaction == c.txn
        && m.row.status == Pending && m.row.retryCount == 0 && m.row.maxRetries == maxRetries && m.row.segments == 1
        && m.row.scheduledAt == (if scheduledAt == None then Some(now) else scheduledAt) && m.row.updatedAt == now
        && m.row.sentAt == m.row.deliveredAt == m.row.failedAt == m.row.nextRetryAt == None && m.row.providerId == None
  {
    var values := AllInserted(cs, scheduledAt, maxRetries, now);
    InsertIsExact(rows, values);
    var i: nat :| i < |values| && values[i] == InsertNew(rows, values)[k];
    assert cs[i] in cs;
  }

  /** Inserting the same values once more changes nothing. */
  lemma {:induction false} InsertIsIdempotent(rows: seq<Message>, values: seq<Message>)
    requires forall i :: 0 <= i < |values| ==> Holds(rows, values[i].key)
    ensures InsertNew(rows, values) == rows
  {
    if values != [] {
      InsertIsIdempotent(rows, values[..|values| - 1]);
    }
  }

  class MessageTable {
    var rows: seq<Message>

    constructor (rows: seq<Message>)
      ensures this.rows == rows
    {
      this.rows := rows;
    }

    method InsertOutboxMessages(candidates: seq<Candidate>, scheduledAt: Option<int>, maxRetries: nat, now: int)
      returns (inserted: nat, duplicatesSkipped: nat)
      modifies this
      ensures rows == InsertNew(old(rows), AllInserted(candidates, scheduledAt, maxRetries, now))
      ensures |rows| == |old(rows)| + inserted
      ensures inserted + duplicatesSkipped == |candidates|
    {
      if candidates == [] {
        return 0, 0;
      }
      var values := [];
      for i := 0 to |candidates|
        invariant values == AllInserted(candidates, scheduledAt, maxRetries, now)[..i]
      {
        values := values + [Inserted(candidates[i], scheduledAt, maxRetries, now)];
      }
      assert values == AllInserted(candidates, scheduledAt, maxRetries, now);
      var before := |rows|;
      InsertIsExact(rows, values);
      rows := InsertNew(rows, values);
      inserted := |rows| - before;
      duplicatesSkipped := |values| - inserted;
    }

    /** Deletes SENT and DELIVERED rows last touched more than `days` ago. */
    method PurgeSentMessages(days: nat, business: Option<nat>, now: int) returns (deleted: nat)
      modifies this
      ensures rows == Surviving(old(rows), {Sent, Delivered}, now - days * DAY, business)
      ensures |rows| + deleted == |old(rows)|
    {
      var before := |rows|;
      SurvivorsAreSubsequence(rows, {Sent, Delivered}, now - days * DAY, business);
      rows := Surviving(rows, {Sent, Delivered}, now - days * DAY, business);
      deleted := before - |rows|;
    }

    /** Deletes FAILED rows last touched more than `days` ago. */
    method PurgeFailedMessages(days: nat, business: Option<nat>, now: int) returns (deleted: nat)
      modifies this
      ensures rows == Surviving(old(rows), {Failed}, now - days * DAY, business)
      ensures |rows| + deleted == |old(rows)|
    {
      var before := |rows|;
      SurvivorsAreSubsequence(rows, {Failed}, now - days * DAY, business);
      rows := Surviving(rows, {Failed}, now - days * DAY, business);
      deleted := before - |rows|;
    }

    /** The outbox part of the daily job: 90 days for sent and delivered messages, 30 for failed ones. */
    method PurgeMessages(business: Option<nat>, now: int) returns (sentPurged: nat, failedPurged: nat)
      modifies this
      ensures rows == Purged(old(rows), business, now)
      ensures |rows| + sentPurged + failedPurged == |old(rows)|
    {
      sentPurged := PurgeSentMessages(90, business, now);
      failedPurged := PurgeFailedMessages(30, business, now);
    }
  }

  // ---------------------------------------------------------------- purging

  predicate Doomed(m: Message, statuses: set<Status>, cutoff: int, business: Option<nat>) {
    m.row.status in statuses && m.row.updatedAt < cutoff && (business.Some? ==> m.row.business == business.value)
  }

  /** DELETE FROM outbound_messages WHERE ... */
  function Surviving(rows: seq<Message>, statuses: set<Status>, cutoff: int, business: Option<nat>): seq<Message> {
    if rows == [] then []
    else
      var n := |rows| - 1;
      Surviving(rows[..n], statuses, cutoff, business)
      + if Doomed(rows[n], statuses, cutoff, business) then [] else [rows[n]]
  }

  /** A deletion keeps exactly the rows its condition spares, and keys stay unique. */
  lemma {:induction false} SurvivorsAreSubsequence(rows: seq<Message>, statuses: set<Status>, cutoff: int,
                                                   business: Option<nat>)
    ensures var left := Surviving(rows, statuses, cutoff, business);
      && |left| <= |rows|
      && (forall m :: m in left <==> m in rows && !Doomed(m, statuses, cutoff, business))
      && (UniqueKeys(rows) ==> UniqueKeys(left))
  {
    if rows != [] {
      var n := |rows| - 1;
      SurvivorsAreSubsequence(rows[..n], statuses, cutoff, business);
      assert rows == rows[..n] + [rows[n]];
      var before := Surviving(rows[..n], statuses, cutoff, business);
      if UniqueKeys(rows) {
        forall i | 0 <= i < |before| ensures before[i].key != rows[n].key {
          assert before[i] in rows[..n];
        }
      }
    }
  }

  /** The outbox after `run_retention_purge`. */
  function Purged(rows: seq<Message>, business: Option<nat>, now: int): seq<Message> {
    Surviving(Surviving(rows, {Sent, Delivered}, now - 90 * DAY, business), {Failed}, now - 30 * DAY, business)
  }

  /** The purge spares exactly the rows whose retention period has not passed. */
  lemma PurgeIsExact(rows: seq<Message>, business: Option<nat>, now: int)
    ensures var left := Purged(rows, business, now);
      && (forall m :: m in left <==> m in rows && !Expired(m, business, now))
      && (UniqueKeys(rows) ==> UniqueKeys(left))
  {
    var first := Surviving(rows, {Sent, Delivered}, now - 90 * DAY, business);
    SurvivorsAreSubsequence(rows, {Sent, Delivered}, now - 90 * DAY, business);
    SurvivorsAreSubsequence(first, {Failed}, now - 30 * DAY, business);
    forall m ensures m in Purged(rows, business, now) <==> m in rows && !Expired(m, business, now) {
      assert m in first <==> m in rows && !Doomed(m, {Sent, Delivered}, now - 90 * DAY, business);
      ExpiredIsDoomed(m, business, now);
    }
  }

  lemma ExpiredIsDoomed(m: Message, business: Option<nat>, now: int)
    ensures Expired(m, business, now)
            <==> Doomed(m, {Sent, Delivered}, now - 90 * DAY, business) || Doomed(m, {Failed}, now - 30 * DAY, business)
  {
  }

  /** A row whose retention period has passed. */
  predicate Expired(m: Message, business: Option<nat>, now: int) {
    && (business.Some? ==> m.row.business == business.value)
    && match m.row.status
       case Sent | Delivered => now - m.row.updatedAt > 90 * DAY
       case Failed => now - m.row.updatedAt > 30 * DAY
       case _ => false
  }
}
