/**
 Delivery callbacks (api/webhooks/twilio.py, africas_talking.py, domain/reconciliation_service.py): they arrive at least
 once, in any order, and overwrite statuses; each leaves a row in delivery_callbacks with a unique provider_event_id.
 */
module Webhooks {
  import opened Prelude
  import opened Outbox

  datatype Gateway = Twilio | AfricasTalking

  datatype Callback = Callback(message: nat, provider: string, eventId: string, status: string)

  datatype Store = Store(rows: seq<Row>, callbacks: seq<Callback>)

  datatype Step =
    | Report(gateway: Gateway, id: string, status: string, now: int)
    | Direct(message: nat, provider: string, eventId: string, status: string, now: int)  // process_delivery_callback
    | Write(message: nat, row: Row)                                                      // any worker's write

  datatype Reply = Done | Duplicate | Raised

  // ---------------------------------------------------------------- status names

  /** Lower case. Only ASCII letters matter: no other character lowers to a letter of the names compared. */
  function Lower(s: string): (r: string)
    ensures |r| == |s|
  {
    seq(|s|, i requires 0 <= i < |s| => if 'A' <= s[i] <= 'Z' then s[i] + 32 as char else s[i])
  }

  function TwilioStatus(status: string): Option<Status> {
    if status in ["queued", "sent", "received"] then Some(Sent)
    else if status == "delivered" then Some(Delivered)
    else if status in ["failed", "undelivered"] then Some(Failed)
    else None
  }

  function AfricasTalkingStatus(status: string): Option<Status> {
    if status == "Sent" then Some(Sent)
    else if status == "Delivered" then Some(Delivered)
    else if status in ["Failed", "Rejected"] then Some(Failed)
    else None
  }

  function DirectStatus(status: string): Option<Status> {
    match AnswerOf(status)
    case IsSent => Some(Sent)
    case IsDelivered => Some(Delivered)
    case IsFailed => Some(Failed)
    case _ => None
  }

  function StatusOf(gateway: Gateway, status: string): Option<Status> {
    if gateway.Twilio? then TwilioStatus(Lower(status)) else AfricasTalkingStatus(status)
  }

  // ---------------------------------------------------------------- one report

  function EventId(id: string, status: string): string {
    id + ":" + status
  }

  /** The first row from position `from` on that carries this provider message id; the row count if none does. */
  function Holder(rows: seq<Row>, id: string, from: nat := 0): (i: nat)
    requires from <= |rows|
    ensures from <= i <= |rows|
    ensures i < |rows| ==> rows[i].providerId == Some(id)
    ensures forall j :: from <= j < i ==> rows[j].providerId != Some(id)
    decreases |rows| - from
  {
    if from == |rows| || rows[from].providerId == Some(id) then from else Holder(rows, id, from + 1)
  }

  datatype Found = Nobody | One(message: nat) | Several

  /** `scalar_one_or_none` on the provider message id. */
  function Locate(rows: seq<Row>, id: string): (f: Found)
    ensures f.Nobody? <==> forall i :: 0 <= i < |rows| ==> rows[i].providerId != Some(id)
    ensures f.One? ==>
              && f.message < |rows|
              && forall i :: 0 <= i < |rows| ==> (rows[i].providerId == Some(id) <==> i == f.message)
    ensures f.Several? ==> exists i, j :: 0 <= i < j < |rows| && rows[i].providerId == rows[j].providerId == Some(id)
  {
    var i := Holder(rows, id);
    if i == |rows| then Nobody
    else if Holder(rows, id, i + 1) < |rows| then
      assert rows[i].providerId == rows[Holder(rows, id, i + 1)].providerId == Some(id);
      Several
    else
      assert forall j :: 0 <= j < |rows| && j != i ==> rows[j].providerId != Some(id);
      One(i)
  }

  predicate Seen(callbacks: seq<Callback>, eventId: string) {
    exists i :: 0 <= i < |callbacks| && callbacks[i].eventId == eventId
  }

  /** What a webhook writes into the row; `updated_at` follows only if some column changes. */
  function Overwritten(row: Row, to: Option<Status>, now: int): Row {
    if to.None? then row
    else
      var moved := row.(status := to.value,
                        deliveredAt := if to.value.Delivered? then Some(now) else row.deliveredAt,
                        failedAt := if to.value.Failed? then Some(now) else row.failedAt);
      if moved == row then row else moved.(updatedAt := now)
  }

  /** What `process_delivery_callback` writes into the row. */
  function DirectlyOverwritten(row: Row, to: Option<Status>, now: int): Row {
    if to.None? then row
    else row.(status := to.value,
              sentAt := if to.value.Sent? && row.sentAt.None? then Some(now) else row.sentAt,
              deliveredAt := if to.value.Delivered? then Some(now) else row.deliveredAt,
              failedAt := if to.value.Failed? then Some(now) else row.failedAt,
              updatedAt := now)
  }

  predicate Enabled(s: Store, step: Step) {
    !step.Report? ==> step.message < |s.rows|
  }

  /** The committed effect of one step; an exception leaves the store alone. */
  function Apply(s: Store, step: Step): (r: Store)
    requires Enabled(s, step)
    ensures |r.rows| == |s.rows|
  {
    match step
    case Report(gateway, id, status, now) =>
      var found := Locate(s.rows, id);
      if !found.One? || Seen(s.callbacks, EventId(id, status)) then s
      else
        var provider := if gateway.Twilio? then "twilio" else "africas_talking";
        var row := Overwritten(s.rows[found.message], StatusOf(gateway, status), now);
        Store(s.rows[found.message := row],
              s.callbacks + [Callback(found.message, provider, EventId(id, status), status)])
    case Direct(m, provider, eventId, status, now) =>
      if Seen(s.callbacks, eventId) then s
      else
        Store(s.rows[m := DirectlyOverwritten(s.rows[m], DirectStatus(Lower(status)), now)],
              s.callbacks + [Callback(m, provider, eventId, status)])
    case Write(m, row) => s.(rows := s.rows[m := row])
  }

  // ---------------------------------------------------------------- the endpoints

  class Endpoints {
    var rows: seq<Row>
    var callbacks: seq<Callback>

    ghost function Contents(): Store
      reads this
    {
      Store(rows, callbacks)
    }

    constructor (rows: seq<Row>, callbacks: seq<Callback>)
      ensures Contents() == Store(rows, callbacks)
    {
      this.rows, this.callbacks := rows, callbacks;
    }

    /** Looks for an earlier callback with the same event id before it writes anything. */
    method TwilioStatus(sid: string, status: string, now: int) returns (reply: Reply)
      modifies this
      ensures Contents() == Apply(old(Contents()), Report(Twilio, sid, status, now))
      ensures reply.Raised? <==> Locate(old(rows), sid).Several?
      ensures reply.Duplicate? <==> Locate(old(rows), sid).One? && Seen(old(callbacks), EventId(sid, status))
    {
      var newStatus := StatusOf(Twilio, status);
      match Locate(rows, sid) {
        case Nobody => return Done;
        case Several => return Raised;
        case One(m) =>
          var eventId := EventId(sid, status);
          if Seen(callbacks, eventId) {
            return Duplicate;
          }
          callbacks := callbacks + [Callback(m, "twilio", eventId, status)];
          if newStatus.Some? {
            SetStatus(m, newStatus.value, now);
          }
          return Done;
      }
    }

    /** Writes both tables; a violated unique constraint makes the commit raise and undoes both. */
    method DeliveryReport(id: string, status: string, now: int) returns (reply: Reply)
      modifies this
      ensures Contents() == Apply(old(Contents()), Report(AfricasTalking, id, status, now))
      ensures reply.Raised? <==> Locate(old(rows), id).Several?
                                 || (Locate(old(rows), id).One? && Seen(old(callbacks), EventId(id, status)))
      ensures !reply.Duplicate?
    {
      match Locate(rows, id) {
        case Nobody => return Done;
        case Several => return Raised;
        case One(m) =>
          var rowsBefore, callbacksBefore := rows, callbacks;
          var eventId := EventId(id, status);
          callbacks := callbacks + [Callback(m, "africas_talking", eventId, status)];
          var newStatus := StatusOf(AfricasTalking, status);
          if newStatus.Some? {
            SetStatus(m, newStatus.value, now);
          }
          if Seen(callbacksBefore, eventId) {
            rows, callbacks := rowsBefore, callbacksBefore;
            return Raised;
          }
          return Done;
      }
    }

    method ProcessDeliveryCallback(m: nat, provider: string, eventId: string, status: string, now: int)
      returns (reply: Reply)
      requires m < |rows|
      modifies this
      ensures Contents() == Apply(old(Contents()), Direct(m, provider, eventId, status, now))
      ensures reply == if Seen(old(callbacks), eventId) then Raised else Done
    {
      if Seen(callbacks, eventId) {
        return Raised;
      }
      callbacks := callbacks + [Callback(m, provider, eventId, status)];
      var newStatus := DirectStatus(Lower(status));
      if newStatus.Some? {
        var row := rows[m].(status := newStatus.value);
        if newStatus.value.Sent? {
          row := row.(sentAt := if row.sentAt.Some? then row.sentAt else Some(now));
        } else if newStatus.value.Delivered? {
          row := row.(deliveredAt := Some(now));
        } else if newStatus.value.Failed? {
          row := row.(failedAt := Some(now));
        }
        rows := rows[m := row.(updatedAt := now)];
      }
      return Done;
    }

    method SetStatus(m: nat, to: Status, now: int)
      requires m < |rows|
      modifies this
      ensures rows == old(rows)[m := Overwritten(old(rows)[m], Some(to), now)]
      ensures callbacks == old(callbacks)
    {
      var row := rows[m].(status := to);
      if to.Delivered? {
        row := row.(deliveredAt := Some(now));
      } else if to.Failed? {
        row := row.(failedAt := Some(now));
      }
      if row != rows[m] {
        row := row.(updatedAt := now);
      }
      rows := rows[m := row];
    }
  }

  // ---------------------------------------------------------------- what a first report writes

  /** Twilio's status names in lower case; Africa's Talking's are taken as they are. */
  lemma LowerIsCaseless(s: string)
    ensures forall i :: 0 <= i < |s| ==>
              && !('A' <= Lower(s)[i] <= 'Z')
              && (Lower(s)[i] != s[i] ==>
                    'A' <= s[i] <= 'Z' && Lower(s)[i] as int - 'a' as int == s[i] as int - 'A' as int)
  {
  }

  /**
   A first report for a known message, on the columns: the status its text means, the timestamp of that status, and one
   callback row; a text that means nothing leaves the message alone. Nothing else changes.
   */
  lemma ReportWrites(s: Store, gateway: Gateway, id: string, status: string, now: int)
    requires Locate(s.rows, id).One?
    requires forall i :: 0 <= i < |s.callbacks| ==> s.callbacks[i].eventId != id + ":" + status
    ensures var m, after := Locate(s.rows, id).message, Apply(s, Report(gateway, id, status, now));
      var was, row, text := s.rows[m], after.rows[m], if gateway == Twilio then Lower(status) else status;
      var sent := text in (if gateway == Twilio then ["queued", "sent", "received"] else ["Sent"]);
      var delivered := text == if gateway == Twilio then "delivered" else "Delivered";
      var failed := text in (if gateway == Twilio then ["failed", "undelivered"] else ["Failed", "Rejected"]);
      && after.rows == s.rows[m := row]
      && after.callbacks == s.callbacks
         + [Callback(m, if gateway == Twilio then "twilio" else "africas_talking", id + ":" + status, status)]
      && row == was.(status := row.status, deliveredAt := row.deliveredAt, failedAt := row.failedAt,
                     updatedAt := row.updatedAt)
      && row.status == (if sent then Sent else if delivered then Delivered else if failed then Failed else was.status)
      && row.deliveredAt == (if delivered then Some(now) else was.deliveredAt)
      && row.failedAt == (if failed then Some(now) else was.failedAt)
      && row.updatedAt == (if row == was.(updatedAt := row.updatedAt) then was.updatedAt else now)
  {
  }

  /** The same for a callback of a known message, whose SENT keeps an earlier `sent_at`. */
  lemma CallbackWrites(s: Store, m: nat, provider: string, eventId: string, status: string, now: int)
    requires m < |s.rows| && forall i :: 0 <= i < |s.callbacks| ==> s.callbacks[i].eventId != eventId
    ensures var after, was := Apply(s, Direct(m, provider, eventId, status, now)), s.rows[m];
      var row, text := after.rows[m], Lower(status);
      && after.rows == s.rows[m := row]
      && after.callbacks == s.callbacks + [Callback(m, provider, eventId, status)]
      && (text in ["sent", "queued", "accepted"] ==>
            row == was.(status := Sent, sentAt := if was.sentAt == None then Some(now) else was.sentAt,
                        updatedAt := now))
      && (text == "delivered" ==> row == was.(status := Delivered, deliveredAt := Some(now), updatedAt := now))
      && (text in ["failed", "undelivered", "rejected"] ==>
            row == was.(status := Failed, failedAt := Some(now), updatedAt := now))
      && (text !in ["sent", "queued", "accepted", "delivered", "failed", "undelivered", "rejected"] ==> row == was)
  {
  }

  // ---------------------------------------------------------------- repeats change nothing

  ghost predicate Runs(s: Store, steps: seq<Step>) {
    forall i :: 0 <= i < |steps| ==> Enabled(s, steps[i])
  }

  function Process(s: Store, steps: seq<Step>): (r: Store)
    requires Runs(s, steps)
    ensures |r.rows| == |s.rows|
  {
    if steps == [] then s
    else
      var n := |steps| - 1;
      Apply(Process(s, steps[..n]), steps[n])
  }

  /** The event id a step reports, if it reports a delivery status. */
  function EventOf(step: Step): Option<string> {
    match step
    case Report(_, id, status, _) => Some(EventId(id, status))
    case Direct(_, _, eventId, _, _) => Some(eventId)
    case Write(_, _) => None
  }

  /** Step `k` was a report for a message known when it arrived. */
  ghost predicate Processed(s: Store, steps: seq<Step>, k: nat)
    requires k < |steps| && Runs(s, steps)
  {
    match steps[k]
    case Report(_, id, _, _) => Locate(Process(s, steps[..k]).rows, id).One?
    case Direct(_, _, _, _, _) => true
    case Write(_, _) => false
  }

  /** A step reports an event that an earlier processed report already reported. */
  ghost predicate Repeats(s: Store, before: seq<Step>, step: Step)
    requires Runs(s, before)
  {
    exists k: nat :: k < |before| && Processed(s, before, k) && EventOf(before[k]) == EventOf(step)
  }

  /** The trace with every repeat of an already processed report removed. */
  ghost function Deduplicated(s: Store, steps: seq<Step>): (r: seq<Step>)
    requires Runs(s, steps)
    ensures Runs(s, r)
  {
    if steps == [] then []
    else
      var before, step := steps[..|steps| - 1], steps[|steps| - 1];
      Deduplicated(s, before) + if Repeats(s, before, step) then [] else [step]
  }

  /** What is removed: a report whose event an earlier one reported while its message was known, and nothing else. */
  lemma RepeatsAreRemoved(s: Store, before: seq<Step>, step: Step)
    requires Runs(s, before) && Enabled(s, step)
    ensures Runs(s, before + [step]) && Deduplicated(s, []) == []
    ensures Deduplicated(s, before + [step])
            == if step.Write? || forall k: nat | k < |before| && EventOf(before[k]) == EventOf(step) ::
                    before[k].Report? && !Locate(Process(s, before[..k]).rows, before[k].id).One?
               then Deduplicated(s, before) + [step] else Deduplicated(s, before)
  {
    assert (before + [step])[..|before|] == before;
  }

  lemma {:induction false} CallbacksOnlyGrow(s: Store, steps: seq<Step>, k: nat)
    requires k <= |steps| && Runs(s, steps)
    ensures Process(s, steps[..k]).callbacks <= Process(s, steps).callbacks
    decreases |steps|
  {
    if k == |steps| {
      assert steps[..k] == steps;
    } else {
      var n := |steps| - 1;
      CallbacksOnlyGrow(s, steps[..n], k);
      assert steps[..n][..k] == steps[..k];
    }
  }

  /** A processed report's event is recorded from then on. */
  lemma ProcessedIsSeen(s: Store, steps: seq<Step>, k: nat)
    requires k < |steps| && Runs(s, steps) && Processed(s, steps, k)
    ensures Seen(Process(s, steps).callbacks, EventOf(steps[k]).value)
  {
    var before, after := Process(s, steps[..k]), Process(s, steps[..k + 1]);
    assert steps[..k + 1][..k] == steps[..k];
    assert Seen(after.callbacks, EventOf(steps[k]).value) by {
      if !Seen(before.callbacks, EventOf(steps[k]).value) {
        assert after.callbacks[|before.callbacks|].eventId == EventOf(steps[k]).value;
      }
    }
    CallbacksOnlyGrow(s, steps, k + 1);
    var i :| 0 <= i < |after.callbacks| && after.callbacks[i].eventId == EventOf(steps[k]).value;
    assert Process(s, steps).callbacks[i] == after.callbacks[i];
  }

  lemma RepeatIsNoOp(s: Store, before: seq<Step>, step: Step)
    requires Runs(s, before) && Enabled(s, step) && Repeats(s, before, step)
    ensures Apply(Process(s, before), step) == Process(s, before)
  {
    var k: nat :| k < |before| && Processed(s, before, k) && EventOf(before[k]) == EventOf(step);
    ProcessedIsSeen(s, before, k);
  }

  lemma ProcessSnoc(s: Store, steps: seq<Step>, step: Step)
    requires Runs(s, steps) && Enabled(s, step)
    ensures Runs(s, steps + [step]) && Process(s, steps + [step]) == Apply(Process(s, steps), step)
  {
  }

  lemma OneMoreStep(s: Store, before: seq<Step>, step: Step)
    requires Runs(s, before) && Enabled(s, step)
    requires Process(s, Deduplicated(s, before)) == Process(s, before)
    ensures Runs(s, before + [step])
    ensures Process(s, Deduplicated(s, before + [step])) == Process(s, before + [step])
  {
    var steps, kept := before + [step], Deduplicated(s, before);
    assert steps[..|before|] == before;
    ProcessSnoc(s, before, step);
    if Repeats(s, before, step) {
      RepeatIsNoOp(s, before, step);
      assert Deduplicated(s, steps) == kept + [] == kept;
    } else {
      ProcessSnoc(s, kept, step);
      assert Deduplicated(s, steps) == kept + [step];
    }
  }

  /** Repeated reports, at whatever time and through whatever gateway they come back, leave no trace. */
  lemma {:induction false} RepeatsLeaveNoTrace(s: Store, steps: seq<Step>)
    requires Runs(s, steps)
    ensures Process(s, Deduplicated(s, steps)) == Process(s, steps)
  {
    if steps == [] {
    } else {
      var before, step := steps[..|steps| - 1], steps[|steps| - 1];
      RepeatsLeaveNoTrace(s, before);
      OneMoreStep(s, before, step);
      assert steps == before + [step];
    }
  }

  /** No event id is ever recorded twice, whatever arrives. */
  ghost predicate UniqueEvents(callbacks: seq<Callback>) {
    forall i, j :: 0 <= i < j < |callbacks| ==> callbacks[i].eventId != callbacks[j].eventId
  }

  lemma {:induction false} EventsStayUnique(s: Store, steps: seq<Step>)
    requires Runs(s, steps) && UniqueEvents(s.callbacks)
    ensures UniqueEvents(Process(s, steps).callbacks)
  {
    if steps != [] {
      EventsStayUnique(s, steps[..|steps| - 1]);
    }
  }

  // ---------------------------------------------------------------- order of first reports

  /**
   Statuses are overwritten without consulting the status machine. Two first reports for one message
   therefore end in the same status in either order exactly when they do not map to different statuses.
   */
  lemma OrderMattersExactly(s: Store, a: Step, b: Step)
    requires a.Report? && b.Report? && a.id == b.id && a.status != b.status
    requires Locate(s.rows, a.id).One?
    requires !Seen(s.callbacks, EventId(a.id, a.status)) && !Seen(s.callbacks, EventId(b.id, b.status))
    ensures var m := Locate(s.rows, a.id).message;
            var toA, toB := StatusOf(a.gateway, a.status), StatusOf(b.gateway, b.status);
      Process(s, [a, b]).rows[m].status == Process(s, [b, a]).rows[m].status
      <==> toA.None? || toB.None? || toA == toB
  {
    TwoReports(s, a, b);
    TwoReports(s, b, a);
  }

  lemma TwoReports(s: Store, a: Step, b: Step)
    requires a.Report? && b.Report? && a.id == b.id && a.status != b.status
    requires Locate(s.rows, a.id).One?
    requires !Seen(s.callbacks, EventId(a.id, a.status)) && !Seen(s.callbacks, EventId(b.id, b.status))
    ensures Process(s, [a, b]).rows[Locate(s.rows, a.id).message].status
            == if StatusOf(b.gateway, b.status).Some? then StatusOf(b.gateway, b.status).value
               else if StatusOf(a.gateway, a.status).Some? then StatusOf(a.gateway, a.status).value
               else s.rows[Locate(s.rows, a.id).message].status
  {
    FirstReport(s, a);
    EventIdsDiffer(a.id, a.status, b.status);
    FirstReport(Apply(s, a), b);
    assert [a, b] == [] + [a] + [b];
    ProcessSnoc(s, [], a);
    ProcessSnoc(s, [] + [a], b);
  }

  lemma FirstReport(s: Store, a: Step)
    requires a.Report? && Locate(s.rows, a.id).One? && !Seen(s.callbacks, EventId(a.id, a.status))
    ensures var m, to, after := Locate(s.rows, a.id).message, StatusOf(a.gateway, a.status), Apply(s, a);
      && Locate(after.rows, a.id) == One(m)
      && after.rows[m].status == (if to.Some? then to.value else s.rows[m].status)
      && forall e: string | Seen(after.callbacks, e) :: e == EventId(a.id, a.status) || Seen(s.callbacks, e)
  {
  }

  lemma EventIdsDiffer(id: string, x: string, y: string)
    requires x != y
    ensures EventId(id, x) != EventId(id, y)
  {
    assert EventId(id, x)[|id| + 1..] == x && EventId(id, y)[|id| + 1..] == y;
  }

  /** A late first "sent" report takes a delivered message back to SENT, which the status machine forbids. */
  lemma LateSentUndoesDelivered(s: Store, id: string, now: int)
    requires Locate(s.rows, id).One? && !Seen(s.callbacks, EventId(id, "sent"))
    requires s.rows[Locate(s.rows, id).message].status.Delivered?
    ensures var m := Locate(s.rows, id).message;
      Apply(s, Report(Twilio, id, "sent", now)).rows[m].status == Sent && Sent !in Allowed(s.rows[m].status)
  {
    assert Lower("sent") == "sent";
  }
}
