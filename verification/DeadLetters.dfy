/**
 The dead letter queue (domain/dead_letter.py): failed messages are copied aside and can be replayed as new
 messages with a fresh retry budget. The original outbox row stays where it is.
 */
module DeadLetters {
  import opened Prelude
  import opened Dispatch
  import K = MessageKeys
  import Outbox

  datatype Letter = Letter(id: nat, business: nat, contact: nat, key: string, kind: K.ReminderType, reason: string,
                           originalCreatedAt: int, deadLetteredAt: int)

  function ReplayKey(key: string, at: K.Stamp): string {
    key + ":replay:" + K.Compact(at)
  }

  /** The new outbox row of a replay. */
  function Replayed(l: Letter, at: K.Stamp, now: int): Message {
    Message(ReplayKey(l.key, at), l.contact, l.kind, now,
            Outbox.Row(l.business, None, Outbox.Pending, 1, 0, 3, Some(now), now, None, None, None, None, None))
  }

  /** The replayed message on its columns: a new key, the letter's business, contact and kind, a fresh retry budget. */
  predicate Replays(l: Letter, m: Message, at: K.Stamp, now: int) {
    && m.key == l.key + ":replay:" + K.Compact(at) && m.contact == l.contact && m.kind == l.kind && m.createdAt == now
    && m.row == Outbox.Row(l.business, None, Outbox.Pending, 1, 0, 3, Some(now), now, None, None, None, None, None)
  }

  ghost predicate UniqueIds(letters: seq<Letter>) {
    forall i, j :: 0 <= i < j < |letters| ==> letters[i].id != letters[j].id
  }

  class DeadLetterQueue {
    const table: MessageTable
    var letters: seq<Letter>
    var nextId: nat

    ghost predicate Valid()
      reads this
    {
      UniqueIds(letters) && forall i :: 0 <= i < |letters| ==> letters[i].id < nextId
    }

    constructor (table: MessageTable)
      ensures Valid() && this.table == table && letters == []
    {
      this.table, letters, nextId := table, [], 0;
    }

    method MoveToDeadLetter(m: Message, reason: string, now: int) returns (l: Letter)
      requires Valid()
      modifies this
      ensures Valid() && letters == old(letters) + [l]
      ensures l == Letter(old(nextId), m.row.business, m.contact, m.key, m.kind, reason, m.createdAt, now)
    {
      l := Letter(nextId, m.row.business, m.contact, m.key, m.kind, reason, m.createdAt, now);
      letters := letters + [l];
      nextId := nextId + 1;
    }

    /**
     Raises if there is no such letter, or if the new key is taken; then nothing changes. Otherwise the letter
     leaves the queue and one row enters the outbox.
     */
    method ReplayFromDeadLetter(id: nat, at: K.Stamp, now: int) returns (r: Result<Message>)
      requires Valid()
      modifies this`letters, table
      ensures Valid()
      ensures r.Ok? <==> exists i :: 0 <= i < |old(letters)| && old(letters)[i].id == id
                                     && !Holds(old(table.rows), ReplayKey(old(letters)[i].key, at))
      ensures r.Err? ==> letters == old(letters) && table.rows == old(table.rows)
      ensures r.Ok? ==> exists i :: 0 <= i < |old(letters)| && old(letters)[i].id == id
                                    && Replays(old(letters)[i], r.value, at, now)
                                    && letters == Without(old(letters), i)
      ensures r.Ok? ==> table.rows == old(table.rows) + [r.value]
      ensures UniqueKeys(old(table.rows)) ==> UniqueKeys(table.rows)
      ensures r.Ok? ==> forall i :: 0 <= i < |letters| ==> letters[i].id != id
    {
      var i := 0;
      while i < |letters| && letters[i].id != id
        invariant 0 <= i <= |letters|
        invariant forall j :: 0 <= j < i ==> letters[j].id != id
      {
        i := i + 1;
      }
      if i == |letters| {
        return Err("Dead letter not found");
      }
      var m := Replayed(letters[i], at, now);
      if Holds(table.rows, m.key) {
        return Err("duplicate message_key");
      }
      table.rows := table.rows + [m];
      letters := Without(letters, i);
      return Ok(m);
    }
  }

  /** The replay suffix is one more pair of parts of the key. */
  lemma ReplayKeyIsKey(k: K.Key, at: K.Stamp)
    ensures ReplayKey(K.Print(k), at) == K.Print(K.Replay(k, at))
  {
    K.JoinTwo(K.Fields(k), "replay", K.Compact(at));
    assert ":replay:" == ":" + "replay" + ":";
  }

  /** Which letter was replayed, and when, can be read off the new key, whatever family the original belongs to. */
  lemma ReplayKeyRecovers(k: K.Key, at: K.Stamp)
    requires K.WellFormed(k) && K.ValidStamp(at) && at.micro == 0
    ensures K.Parse(ReplayKey(K.Print(k), at)) == Some(K.Replay(k, at))
  {
    ReplayKeyIsKey(k, at);
    K.PrintRoundTrip(K.Replay(k, at));
  }

  /** A replay key is taken exactly when the same key was replayed in the same second. */
  lemma ReplayIsTakenExactly(rows: seq<Message>, keys: seq<K.Key>, k: K.Key, at: K.Stamp)
    requires |keys| == |rows| && K.WellFormed(k) && K.ValidStamp(at) && at.micro == 0
    requires forall i :: 0 <= i < |rows| ==> K.WellFormed(keys[i]) && rows[i].key == K.Print(keys[i])
    ensures Holds(rows, ReplayKey(K.Print(k), at)) <==> K.Replay(k, at) in keys
  {
    ReplayKeyIsKey(k, at);
    if Holds(rows, ReplayKey(K.Print(k), at)) {
      var i :| 0 <= i < |rows| && rows[i].key == ReplayKey(K.Print(k), at);
      K.KeysNeverCollide(keys[i], K.Replay(k, at));
    }
    if K.Replay(k, at) in keys {
      var i :| 0 <= i < |keys| && keys[i] == K.Replay(k, at);
      assert rows[i].key == ReplayKey(K.Print(k), at);
    }
  }
}
