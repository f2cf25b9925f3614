/**
 The send worker (workers/sends.py): poll, then claim, check contact, quiet hours and budget, send and record. What it
 cannot decide itself (contact lookup, policy, provider, audit log) is one `Circumstance` per message.
 */
module Sends {
  import opened Prelude
  import opened Outbox

  datatype Reply =
    | RaisesBefore
    | RaisesIn
    | Accept(provider: string, segments: nat, priced: bool)
    | Timeout
    | Refuse

  datatype Circumstance = Circumstance(contactOk: bool, quiet: bool, reply: Reply, auditRaises: bool, now: int)

  /** Daily budget in KES and the start of the current UTC day. */
  datatype Config = Config(budget: nat, dayStart: int)

  datatype Counters = Counters(sent: nat, failed: nat, unknown: nat, claimed: nat, skipped: nat, budgetPaused: bool)

  // ---------------------------------------------------------------- specification

  /** What one row adds to a business's spend of the day. */
  function Cost(row: Row, business: nat, dayStart: int): nat {
    if row.business == business && (row.status.Sent? || row.status.Delivered?)
       && row.sentAt.Some? && row.sentAt.value >= dayStart
    then row.segments else 0
  }

  /** `_get_daily_spend`. */
  function Spend(rows: seq<Row>, business: nat, dayStart: int): nat {
    if rows == [] then 0
    else Spend(rows[..|rows| - 1], business, dayStart) + Cost(rows[|rows| - 1], business, dayStart)
  }

  function OutcomeOf(rows: seq<Row>, id: nat, c: Circumstance, cfg: Config): Outcome
    requires id < |rows|
  {
    if c.reply.RaisesBefore? then Crashed
    else if !c.contactOk then NoContact
    else if c.quiet || Spend(rows, rows[id].business, cfg.dayStart) >= cfg.budget then Deferred
    else match c.reply
      case RaisesIn => CrashedInSend
      case Timeout => Ambiguous
      case Refuse => Refused
      case Accept(provider, segments, priced) => Accepted(provider, if priced then Some(segments) else None)
      case RaisesBefore => Crashed
  }

  function SendOne(rows: seq<Row>, id: nat, c: Circumstance, cfg: Config): seq<Row>
    requires id < |rows|
  {
    rows[id := Attempt(rows[id], OutcomeOf(rows, id, c, cfg), c.now)]
  }

  predicate Calls(rows: seq<Row>, id: nat, c: Circumstance, cfg: Config)
    requires id < |rows|
  {
    rows[id].status.Pending? && CallsProvider(OutcomeOf(rows, id, c, cfg))
  }

  /** The table after the first messages of a batch have been treated, in order. */
  function SendAll(rows: seq<Row>, batch: seq<nat>, cs: seq<Circumstance>, cfg: Config): (r: seq<Row>)
    requires |batch| <= |cs| && InRange(batch, |rows|)
    ensures |r| == |rows|
  {
    if batch == [] then rows
    else
      var n := |batch| - 1;
      SendOne(SendAll(rows, batch[..n], cs, cfg), batch[n], cs[n], cfg)
  }

  /** The messages handed to the provider, in order. */
  function Handed(rows: seq<Row>, batch: seq<nat>, cs: seq<Circumstance>, cfg: Config): seq<nat>
    requires |batch| <= |cs| && InRange(batch, |rows|)
  {
    if batch == [] then []
    else
      var n := |batch| - 1;
      Handed(rows, batch[..n], cs, cfg)
      + if Calls(SendAll(rows, batch[..n], cs, cfg), batch[n], cs[n], cfg) then [batch[n]] else []
  }

  /** Which counter a message goes into. */
  datatype Verdict = CountSent | CountFailed | CountUnknown | CountSkipped

  function VerdictOf(rows: seq<Row>, id: nat, c: Circumstance, cfg: Config): Verdict
    requires id < |rows|
  {
    if !rows[id].status.Pending? then CountSkipped
    else match OutcomeOf(rows, id, c, cfg)
      case Accepted(_, _) => CountSent
      case Ambiguous => CountUnknown
      case Deferred => CountSkipped
      case _ => CountFailed
  }

  /** The budget, and nothing before it, stops this message. */
  predicate OverBudget(rows: seq<Row>, id: nat, c: Circumstance, cfg: Config)
    requires id < |rows|
  {
    rows[id].status.Pending? && !c.reply.RaisesBefore? && c.contactOk && !c.quiet
    && Spend(rows, rows[id].business, cfg.dayStart) >= cfg.budget
  }

  /** An audit call that fails after a completed send makes the message count as failed once more. */
  predicate CountedTwice(rows: seq<Row>, id: nat, c: Circumstance, cfg: Config)
    requires id < |rows|
  {
    c.auditRaises && Calls(rows, id, c, cfg) && !c.reply.RaisesIn?
  }

  /** The counters after one message; `again` when the audit call failed after a completed send. */
  function Tally(r: Counters, claimed: bool, verdict: Verdict, paused: bool, again: bool): Counters {
    Counters(r.sent + (if verdict.CountSent? then 1 else 0),
             r.failed + (if verdict.CountFailed? then 1 else 0) + (if again then 1 else 0),
             r.unknown + (if verdict.CountUnknown? then 1 else 0),
             r.claimed + (if claimed then 1 else 0),
             r.skipped + (if verdict.CountSkipped? then 1 else 0),
             r.budgetPaused || paused)
  }

  function Counted(r: Counters): nat {
    r.sent + r.failed + r.unknown + r.skipped
  }

  /** The counters after the first messages of a batch. */
  function Totals(rows: seq<Row>, batch: seq<nat>, cs: seq<Circumstance>, cfg: Config): Counters
    requires |batch| <= |cs| && InRange(batch, |rows|)
  {
    if batch == [] then Counters(0, 0, 0, 0, 0, false)
    else
      var n := |batch| - 1;
      var done := SendAll(rows, batch[..n], cs, cfg);
      Tally(Totals(rows, batch[..n], cs, cfg), done[batch[n]].status.Pending?, VerdictOf(done, batch[n], cs[n], cfg),
            OverBudget(done, batch[n], cs[n], cfg), CountedTwice(done, batch[n], cs[n], cfg))
  }

  /** How many messages of the batch a failing audit call counts twice. */
  function Recounted(rows: seq<Row>, batch: seq<nat>, cs: seq<Circumstance>, cfg: Config): nat
    requires |batch| <= |cs| && InRange(batch, |rows|)
  {
    if batch == [] then 0
    else
      var n := |batch| - 1;
      Recounted(rows, batch[..n], cs, cfg)
      + if CountedTwice(SendAll(rows, batch[..n], cs, cfg), batch[n], cs[n], cfg) then 1 else 0
  }

  /** Every polled message is claimed, and counted once: or twice if the audit log failed after its send. */
  lemma {:induction false} EveryMessageIsCounted(rows: seq<Row>, batch: seq<nat>, cs: seq<Circumstance>, cfg: Config)
    requires |batch| <= |cs| && InRange(batch, |rows|) && Distinct(batch)
    requires forall i :: 0 <= i < |batch| ==> rows[batch[i]].status.Pending?
    ensures Totals(rows, batch, cs, cfg).claimed == |batch|
    ensures Counted(Totals(rows, batch, cs, cfg)) == |batch| + Recounted(rows, batch, cs, cfg)
  {
    if batch != [] {
      var n := |batch| - 1;
      EveryMessageIsCounted(rows, batch[..n], cs, cfg);
      Untouched(rows, batch[..n], cs, cfg, batch[n]);
    }
  }

  /** Messages still to come are as they were polled. */
  lemma {:induction false} Untouched(rows: seq<Row>, batch: seq<nat>, cs: seq<Circumstance>, cfg: Config, id: nat)
    requires |batch| <= |cs| && InRange(batch, |rows|) && id < |rows| && id !in batch
    ensures SendAll(rows, batch, cs, cfg)[id] == rows[id]
  {
    if batch != [] {
      Untouched(rows, batch[..|batch| - 1], cs, cfg, id);
    }
  }

  // ---------------------------------------------------------------- when a message is sent, and what becomes of it

  /**
   The provider is called: the message is PENDING, its contact exists and has not opted out, it is not quiet, today's
   spend of its business is below the budget, and nothing raised before.
   */
  predicate MaySend(rows: seq<Row>, id: nat, c: Circumstance, cfg: Config)
    requires id < |rows|
  {
    && rows[id].status == Pending && c.reply != RaisesBefore && c.contactOk && !c.quiet
    && Spend(rows, rows[id].business, cfg.dayStart) < cfg.budget
  }

  /**
   What becomes of the row, on its columns: a message held back stays PENDING with its retry counter, one without
   contact or refused is FAILED, an accepted one SENT, an unclear one UNKNOWN_DELIVERY; an exception leaves it SENDING.
   */
  predicate Treated(was: Row, row: Row, c: Circumstance, called: bool) {
    if was.status != Pending then row == was
    else if c.reply == RaisesBefore then row == was.(status := Sending, updatedAt := c.now)
    else if !c.contactOk then row == was.(status := Failed, failedAt := Some(c.now), updatedAt := c.now)
    else if !called then row == was.(updatedAt := c.now)
    else match c.reply
      case RaisesIn => row == was.(status := Sending, updatedAt := c.now)
      case Timeout => row == was.(status := UnknownDelivery, updatedAt := c.now)
      case Refuse => row == was.(status := Failed, failedAt := Some(c.now), updatedAt := c.now)
      case Accept(provider, segments, priced) =>
        row == was.(status := Sent, sentAt := Some(c.now), updatedAt := c.now,
                    providerId := if provider == "" then was.providerId else Some(provider),
                    segments := if priced then segments else was.segments)
      case RaisesBefore => false
  }

  /** The row of one message, whatever the spend is. */
  lemma AttemptTreats(rows: seq<Row>, id: nat, c: Circumstance, cfg: Config)
    requires id < |rows|
    ensures Treated(rows[id], Attempt(rows[id], OutcomeOf(rows, id, c, cfg), c.now), c, MaySend(rows, id, c, cfg))
  {
  }

  /** One message, on the inputs of the worker. */
  lemma OneMessage(rows: seq<Row>, id: nat, c: Circumstance, cfg: Config)
    requires id < |rows|
    ensures Calls(rows, id, c, cfg) <==> MaySend(rows, id, c, cfg)
    ensures Treated(rows[id], SendOne(rows, id, c, cfg)[id], c, MaySend(rows, id, c, cfg))
    ensures forall x :: 0 <= x < |rows| && x != id ==> SendOne(rows, id, c, cfg)[x] == rows[x]
  {
    AttemptTreats(rows, id, c, cfg);
  }

  /** Its counter, and whether the budget is what stopped it. */
  lemma OneVerdict(rows: seq<Row>, id: nat, c: Circumstance, cfg: Config)
    requires id < |rows|
    ensures VerdictOf(rows, id, c, cfg)
            == if rows[id].status != Pending then CountSkipped
               else if c.reply == RaisesBefore || !c.contactOk then CountFailed
               else if c.quiet || Spend(rows, rows[id].business, cfg.dayStart) >= cfg.budget then CountSkipped
               else if c.reply.Accept? then CountSent else if c.reply == Timeout then CountUnknown else CountFailed
    ensures OverBudget(rows, id, c, cfg)
            <==> rows[id].status == Pending && c.reply != RaisesBefore && c.contactOk && !c.quiet
                 && Spend(rows, rows[id].business, cfg.dayStart) >= cfg.budget
  {
  }

  /** The counters, message by message: its verdict, its claim, and a second failure when only the audit failed. */
  lemma OneMoreCounted(rows: seq<Row>, batch: seq<nat>, cs: seq<Circumstance>, cfg: Config)
    requires 0 < |batch| <= |cs| && InRange(batch, |rows|)
    ensures var n := |batch| - 1;
      var before, r, r' := SendAll(rows, batch[..n], cs, cfg), Totals(rows, batch[..n], cs, cfg),
                           Totals(rows, batch, cs, cfg);
      var v := VerdictOf(before, batch[n], cs[n], cfg);
      var again := cs[n].auditRaises && MaySend(before, batch[n], cs[n], cfg) && cs[n].reply != RaisesIn;
      && r'.sent == r.sent + (if v == CountSent then 1 else 0)
      && r'.failed == r.failed + (if v == CountFailed then 1 else 0) + (if again then 1 else 0)
      && r'.unknown == r.unknown + (if v == CountUnknown then 1 else 0)
      && r'.skipped == r.skipped + (if v == CountSkipped then 1 else 0)
      && r'.claimed == r.claimed + (if before[batch[n]].status == Pending then 1 else 0)
      && (r'.budgetPaused <==> r.budgetPaused || OverBudget(before, batch[n], cs[n], cfg))
      && Totals(rows, [], cs, cfg) == Counters(0, 0, 0, 0, 0, false)
  {
    OneMessage(SendAll(rows, batch[..|batch| - 1], cs, cfg), batch[|batch| - 1], cs[|batch| - 1], cfg);
  }

  /** Today's spend of a business grows by the segments of each of its rows that was sent today, and by nothing else. */
  lemma SpendCounts(rows: seq<Row>, row: Row, business: nat, dayStart: int)
    ensures Spend([], business, dayStart) == 0
    ensures row.business == business && row.status in {Sent, Delivered} && row.sentAt.Some?
            && row.sentAt.value >= dayStart ==>
              Spend(rows + [row], business, dayStart) == Spend(rows, business, dayStart) + row.segments
    ensures row.business != business || row.status !in {Sent, Delivered} || row.sentAt.None?
            || row.sentAt.value < dayStart ==>
              Spend(rows + [row], business, dayStart) == Spend(rows, business, dayStart)
  {
  }

  /** A message treated in a batch is what it was when polled, and everything before it has been done. */
  lemma {:induction false} StepOfBatch(rows: seq<Row>, batch: seq<nat>, cs: seq<Circumstance>, cfg: Config, i: nat)
    requires |batch| <= |cs| && InRange(batch, |rows|) && Distinct(batch) && i < |batch|
    ensures var before := SendAll(rows, batch[..i], cs, cfg);
      && before[batch[i]] == rows[batch[i]]
      && SendAll(rows, batch, cs, cfg)[batch[i]] == SendOne(before, batch[i], cs[i], cfg)[batch[i]]
      && (batch[i] in Handed(rows, batch, cs, cfg) <==> Calls(before, batch[i], cs[i], cfg))
  {
    var n := |batch| - 1;
    assert batch == batch[..n] + [batch[n]];
    if i == n {
      Untouched(rows, batch[..n], cs, cfg, batch[n]);
      HandedFromBatch(rows, batch[..n], cs, cfg);
    } else {
      StepOfBatch(rows, batch[..n], cs, cfg, i);
      assert batch[..n][..i] == batch[..i] && batch[..n][i] == batch[i];
    }
  }

  lemma {:induction false} HandedFromBatch(rows: seq<Row>, batch: seq<nat>, cs: seq<Circumstance>, cfg: Config)
    requires |batch| <= |cs| && InRange(batch, |rows|)
    ensures forall id: nat | id in Handed(rows, batch, cs, cfg) :: id in batch
  {
    if batch != [] {
      HandedFromBatch(rows, batch[..|batch| - 1], cs, cfg);
    }
  }

  /**
   A polled batch, message by message: it is handed to the provider exactly if it may be sent with the spend as it is
   by then, and its row ends as it must. No row outside the batch is touched.
   */
  lemma BatchSendsExactly(rows: seq<Row>, batch: seq<nat>, cs: seq<Circumstance>, cfg: Config)
    requires |batch| <= |cs| && InRange(batch, |rows|) && Distinct(batch)
    ensures forall i :: 0 <= i < |batch| ==>
              var id, before := batch[i], SendAll(rows, batch[..i], cs, cfg);
              var maySend := rows[id].status == Pending && cs[i].reply != RaisesBefore && cs[i].contactOk
                             && !cs[i].quiet && Spend(before, rows[id].business, cfg.dayStart) < cfg.budget;
              && (id in Handed(rows, batch, cs, cfg) <==> maySend)
              && Treated(rows[id], SendAll(rows, batch, cs, cfg)[id], cs[i], maySend)
    ensures forall id: nat | id < |rows| && id !in batch :: SendAll(rows, batch, cs, cfg)[id] == rows[id]
  {
    forall i | 0 <= i < |batch|
      ensures var id, before := batch[i], SendAll(rows, batch[..i], cs, cfg);
        && before[id] == rows[id]
        && (id in Handed(rows, batch, cs, cfg) <==> MaySend(before, id, cs[i], cfg))
        && Treated(rows[id], SendAll(rows, batch, cs, cfg)[id], cs[i], MaySend(before, id, cs[i], cfg))
    {
      StepOfBatch(rows, batch, cs, cfg, i);
      OneMessage(SendAll(rows, batch[..i], cs, cfg), batch[i], cs[i], cfg);
    }
    forall id: nat | id < |rows| && id !in batch ensures SendAll(rows, batch, cs, cfg)[id] == rows[id] {
      Untouched(rows, batch, cs, cfg, id);
    }
  }

  // ---------------------------------------------------------------- the worker

  /** The body of the worker's loop for one message. */
  method SendMessage(table: OutboxTable, id: nat, c: Circumstance, cfg: Config)
    returns (claimed: bool, verdict: Verdict, paused: bool, called: bool)
    requires id < |table.rows|
    modifies table
    ensures table.rows == SendOne(old(table.rows), id, c, cfg)
    ensures claimed == old(table.rows)[id].status.Pending?
    ensures verdict == VerdictOf(old(table.rows), id, c, cfg)
    ensures paused == OverBudget(old(table.rows), id, c, cfg)
    ensures called == Calls(old(table.rows), id, c, cfg)
    ensures called <==> MaySend(old(table.rows), id, c, cfg)
    ensures Treated(old(table.rows)[id], table.rows[id], c, called)
    ensures forall x :: 0 <= x < |table.rows| && x != id ==> table.rows[x] == old(table.rows)[x]
  {
    OneMessage(table.rows, id, c, cfg);
    paused, called := false, false;
    claimed := table.ClaimForSending(id, c.now);
    if !claimed {
      return claimed, CountSkipped, false, false;
    }
    SpendAfterClaim(old(table.rows), id, c.now, table.rows[id].business, cfg.dayStart);
    if c.reply.RaisesBefore? {
      verdict := CountFailed;
    } else if !c.contactOk {
      var _ := table.TransitionStatus(id, Failed, "", c.now);
      verdict := CountFailed;
    } else if c.quiet {
      table.Release(id, c.now);
      verdict := CountSkipped;
    } else {
      var spend := SpendOf(table.rows, table.rows[id].business, cfg.dayStart);
      if spend >= cfg.budget {
        table.Release(id, c.now);
        paused, verdict := true, CountSkipped;
      } else {
        called := true;
        verdict := RecordReply(table, id, c);
      }
    }
  }

  /** A SENDING row once the answer of the provider is in. */
  function Recorded(row: Row, c: Circumstance): Row
    requires row.status.Sending?
  {
    match c.reply
    case RaisesIn | RaisesBefore => row
    case Accept(provider, segments, priced) =>
      var sent := Transition(row, Sent, provider, c.now).value;
      if priced then sent.(segments := segments) else sent
    case Timeout => Transition(row, UnknownDelivery, "", c.now).value
    case Refuse => Transition(row, Failed, "", c.now).value
  }

  /** The answer of the provider goes into the row; a call that raised leaves it SENDING. */
  method RecordReply(table: OutboxTable, id: nat, c: Circumstance) returns (verdict: Verdict)
    requires id < |table.rows| && table.rows[id].status.Sending?
    modifies table
    ensures verdict == if c.reply.Accept? then CountSent else if c.reply.Timeout? then CountUnknown else CountFailed
    ensures table.rows == old(table.rows)[id := Recorded(old(table.rows)[id], c)]
  {
    match c.reply {
      case RaisesIn | RaisesBefore =>
        verdict := CountFailed;
      case Accept(provider, segments, priced) =>
        var _ := table.TransitionStatus(id, Sent, provider, c.now);
        if priced {
          table.SetSegments(id, segments);
        }
        verdict := CountSent;
      case Timeout =>
        var _ := table.TransitionStatus(id, UnknownDelivery, "", c.now);
        verdict := CountUnknown;
      case Refuse =>
        var _ := table.TransitionStatus(id, Failed, "", c.now);
        verdict := CountFailed;
    }
  }

  /** The loop over the polled messages. */
  method SendBatch(table: OutboxTable, batch: seq<nat>, cs: seq<Circumstance>, cfg: Config)
    returns (result: Counters, handed: seq<nat>)
    requires |batch| <= |cs| && InRange(batch, |table.rows|)
    modifies table
    ensures table.rows == SendAll(old(table.rows), batch, cs, cfg)
    ensures handed == Handed(old(table.rows), batch, cs, cfg)
    ensures result == Totals(old(table.rows), batch, cs, cfg)
  {
    var start := table.rows;
    result := Counters(0, 0, 0, 0, 0, false);
    handed := [];
    var i := 0;
    while i < |batch|
      invariant 0 <= i <= |batch|
      invariant Progress(start, batch, cs, cfg, i, table.rows, handed, result)
    {
      ghost var before, soFar, counts := table.rows, handed, result;
      var claimed, verdict, paused, called := SendMessage(table, batch[i], cs[i], cfg);
      result := Tally(result, claimed, verdict, paused, called && cs[i].auditRaises && !cs[i].reply.RaisesIn?);
      handed := if called then handed + [batch[i]] else handed;
      Advance(start, batch, cs, cfg, i, before, soFar, counts);
      i := i + 1;
    }
    assert batch[..i] == batch;
  }

  /** Where the loop stands before message `i`. */
  ghost predicate Progress(start: seq<Row>, batch: seq<nat>, cs: seq<Circumstance>, cfg: Config, i: nat,
                           rows: seq<Row>, handed: seq<nat>, result: Counters)
    requires |batch| <= |cs| && InRange(batch, |start|) && i <= |batch|
  {
    && rows == SendAll(start, batch[..i], cs, cfg)
    && handed == Handed(start, batch[..i], cs, cfg)
    && result == Totals(start, batch[..i], cs, cfg)
  }

  lemma Advance(start: seq<Row>, batch: seq<nat>, cs: seq<Circumstance>, cfg: Config, i: nat,
                rows: seq<Row>, handed: seq<nat>, result: Counters)
    requires |batch| <= |cs| && InRange(batch, |start|) && i < |batch|
    requires Progress(start, batch, cs, cfg, i, rows, handed, result)
    ensures Progress(start, batch, cs, cfg, i + 1, SendOne(rows, batch[i], cs[i], cfg),
                     if Calls(rows, batch[i], cs[i], cfg) then handed + [batch[i]] else handed,
                     Tally(result, rows[batch[i]].status.Pending?, VerdictOf(rows, batch[i], cs[i], cfg),
                           OverBudget(rows, batch[i], cs[i], cfg), CountedTwice(rows, batch[i], cs[i], cfg)))
  {
    assert batch[..i + 1][..i] == batch[..i];
  }

  /**
   `_async_poll_and_send`. `locked` are the rows other workers hold, `commits` says whether the
   final commit goes through.
   */
  method PollAndSend(table: OutboxTable, locked: set<nat>, pollTime: int, batchSize: nat,
                     cs: seq<Circumstance>, cfg: Config, commits: bool)
    returns (result: Counters, handed: seq<nat>)
    requires batchSize <= |cs|
    modifies table
    ensures var batch := PollPending(old(table.rows), locked, pollTime, batchSize);
      && |batch| <= batchSize && InRange(batch, |old(table.rows)|)
      && table.rows == (if commits then SendAll(old(table.rows), batch, cs, cfg) else old(table.rows))
      && handed == Handed(old(table.rows), batch, cs, cfg)
      && result == Totals(old(table.rows), batch, cs, cfg)
  {
    var snapshot := table.rows;
    var batch := PollPending(table.rows, locked, pollTime, batchSize);
    PollPendingIsQuery(table.rows, locked, pollTime, batchSize);
    result, handed := SendBatch(table, batch, cs, cfg);
    if !commits {
      table.Restore(snapshot);
    }
  }

  /** The SUM query, as a loop. */
  method SpendOf(rows: seq<Row>, business: nat, dayStart: int) returns (total: nat)
    ensures total == Spend(rows, business, dayStart)
  {
    total := 0;
    for i := 0 to |rows|
      invariant total == Spend(rows[..i], business, dayStart)
    {
      assert rows[..i + 1][..i] == rows[..i];
      total := total + Cost(rows[i], business, dayStart);
    }
    assert rows[..|rows|] == rows;
  }

  // ---------------------------------------------------------------- the daily budget

  lemma {:induction false} SpendUpdate(rows: seq<Row>, id: nat, row: Row, business: nat, dayStart: int)
    requires id < |rows|
    ensures Spend(rows[id := row], business, dayStart) + Cost(rows[id], business, dayStart)
            == Spend(rows, business, dayStart) + Cost(row, business, dayStart)
  {
    var n := |rows| - 1;
    if id < n {
      SpendUpdate(rows[..n], id, row, business, dayStart);
      assert rows[id := row][..n] == rows[..n][id := row];
    } else {
      assert rows[id := row][..n] == rows[..n];
    }
  }

  lemma SpendAfterClaim(rows: seq<Row>, id: nat, now: int, business: nat, dayStart: int)
    requires id < |rows|
    ensures rows[id].status.Pending? ==>
              Spend(rows[id := Claimed(rows[id], now)], business, dayStart) == Spend(rows, business, dayStart)
  {
    SpendUpdate(rows, id, Claimed(rows[id], now), business, dayStart);
  }

  /** No accepted message of the business costs more than `k` segments. */
  predicate SegmentsAtMost(rows: seq<Row>, batch: seq<nat>, cs: seq<Circumstance>, business: nat, k: nat)
    requires |batch| <= |cs| && InRange(batch, |rows|)
  {
    forall i :: 0 <= i < |batch| && rows[batch[i]].business == business && cs[i].reply.Accept? ==>
      (if cs[i].reply.priced then cs[i].reply.segments else rows[batch[i]].segments) <= k
  }

  lemma OneSendSpend(rows: seq<Row>, id: nat, c: Circumstance, cfg: Config, business: nat, k: nat)
    requires id < |rows| && rows[id].status.Pending?
    requires rows[id].business == business && c.reply.Accept? ==>
               (if c.reply.priced then c.reply.segments else rows[id].segments) <= k
    ensures Spend(SendOne(rows, id, c, cfg), business, cfg.dayStart)
            <= Max(Spend(rows, business, cfg.dayStart), cfg.budget - 1 + k)
  {
    SpendUpdate(rows, id, Attempt(rows[id], OutcomeOf(rows, id, c, cfg), c.now), business, cfg.dayStart);
  }

  /** After every message of the batch, each business's spend stays within its start or one message past the budget. */
  lemma {:induction false} SpendStaysInBudget(rows: seq<Row>, batch: seq<nat>, cs: seq<Circumstance>, cfg: Config,
                                              business: nat, k: nat, i: nat)
    requires |batch| <= |cs| && InRange(batch, |rows|) && Distinct(batch) && i <= |batch|
    requires forall j :: 0 <= j < |batch| ==> rows[batch[j]].status.Pending?
    requires SegmentsAtMost(rows, batch, cs, business, k)
    ensures Spend(SendAll(rows, batch[..i], cs, cfg), business, cfg.dayStart)
            <= Max(Spend(rows, business, cfg.dayStart), cfg.budget - 1 + k)
  {
    if i > 0 {
      var done := SendAll(rows, batch[..i - 1], cs, cfg);
      assert batch[..i][..i - 1] == batch[..i - 1];
      SpendStaysInBudget(rows, batch, cs, cfg, business, k, i - 1);
      Untouched(rows, batch[..i - 1], cs, cfg, batch[i - 1]);
      OneSendSpend(done, batch[i - 1], cs[i - 1], cfg, business, k);
    }
  }
}
