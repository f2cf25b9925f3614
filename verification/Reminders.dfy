/**
 The daily reminder scheduler (domain/reminder_service.py, workers/reminders.py): which reminders are due on
 which day, and what is left in the outbox after many runs on many days. A date is a day number.
 */
module Reminders {
  import opened Prelude
  import opened Dispatch
  import K = MessageKeys
  import L = Ledger
  import Outbox

  /** A transaction as loaded; `iso` is the calendar form of its due date. */
  datatype Loaded = Loaded(id: nat, customer: nat, iso: K.Date, txn: L.Txn)

  type Schedule = map<K.ReminderType, int>

  const DEFAULT_SCHEDULE: Schedule := map[K.Due14 := 14, K.Due3 := 3, K.DueToday := 0]

  // ---------------------------------------------------------------- what is due

  function Eligible(kind: L.TxnType): set<K.ReminderType> {
    match kind
    case Sale => {}
    case Credit => {K.Due14, K.Due3, K.DueToday, K.LateNotice}
    case Layaway => {K.Due14, K.Due3, K.DueToday, K.LateNotice, K.LayawayPickup}
    case Service => {K.Due14, K.Due3, K.DueToday, K.AppointmentReminder}
  }

  /** Days before the due date; an empty schedule means the default one, a missing type means zero. */
  function DaysBefore(schedule: Schedule, kind: K.ReminderType): int {
    var s := if schedule == map[] then DEFAULT_SCHEDULE else schedule;
    if kind in s then s[kind] else 0
  }

  predicate DueOn(t: L.Txn, kind: K.ReminderType, today: int, schedule: Schedule) {
    t.dueDate.Some? && t.dueDate.value - DaysBefore(schedule, kind) == today
  }

  predicate LateNoticeEligible(t: L.Txn, today: int) {
    && !(t.status.Paid? || t.status.Cancelled?)
    && (t.kind.Credit? || t.kind.Layaway?)
    && t.dueDate.Some? && t.dueDate.value < today
  }

  /** Under any schedule: which types are due on which day; an empty one means 14, 3 and 0 days, a missing type 0. */
  lemma DueTypesExactly(t: L.Txn, today: int, schedule: Schedule, kind: K.ReminderType)
    ensures var open := !(t.status == L.Paid || t.status == L.Cancelled) && t.dueDate != None && t.kind != L.Sale;
      var days := if schedule == map[] then (if kind == K.Due14 then 14 else if kind == K.Due3 then 3 else 0)
                  else if kind in schedule then schedule[kind] else 0;
      kind in DueTypes(t, today, schedule)
      <==> && open
           && if kind == K.LateNotice then today > t.dueDate.value && t.kind != L.Service
              else kind in [K.Due14, K.Due3, K.DueToday] && today == t.dueDate.value - days
  {
    ScheduledThree(t, today, schedule);
  }

  /** The reminder types of one transaction on one day, in the order they are built. */
  function DueTypes(t: L.Txn, today: int, schedule: Schedule): seq<K.ReminderType> {
    if t.status.Paid? || t.status.Cancelled? then []
    else
      Scheduled(t, [K.Due14, K.Due3, K.DueToday], today, schedule)
      + if K.LateNotice in Eligible(t.kind) && LateNoticeEligible(t, today) then [K.LateNotice] else []
  }

  function Scheduled(t: L.Txn, kinds: seq<K.ReminderType>, today: int, schedule: Schedule): seq<K.ReminderType> {
    if kinds == [] then []
    else
      var n := |kinds| - 1;
      Scheduled(t, kinds[..n], today, schedule)
      + if kinds[n] in Eligible(t.kind) && DueOn(t, kinds[n], today, schedule) then [kinds[n]] else []
  }

  lemma ScheduledThree(t: L.Txn, today: int, schedule: Schedule)
    ensures Scheduled(t, [K.Due14, K.Due3, K.DueToday], today, schedule)
            == (if K.Due14 in Eligible(t.kind) && DueOn(t, K.Due14, today, schedule) then [K.Due14] else [])
             + (if K.Due3 in Eligible(t.kind) && DueOn(t, K.Due3, today, schedule) then [K.Due3] else [])
             + (if K.DueToday in Eligible(t.kind) && DueOn(t, K.DueToday, today, schedule) then [K.DueToday] else [])
  {
    var three := [K.Due14, K.Due3, K.DueToday];
    assert three[..2] == [K.Due14, K.Due3] && [K.Due14, K.Due3][..1] == [K.Due14] && [K.Due14][..0] == [];
    assert Scheduled(t, [], today, schedule) == [];
    assert Scheduled(t, [K.Due14], today, schedule)
        == if K.Due14 in Eligible(t.kind) && DueOn(t, K.Due14, today, schedule) then [K.Due14] else [];
  }

  /** The types a transaction of this kind is ever reminded of. */
  function Expected(kind: L.TxnType): set<K.ReminderType> {
    match kind
    case Sale => {}
    case Credit | Layaway => {K.Due14, K.Due3, K.DueToday, K.LateNotice}
    case Service => {K.Due14, K.Due3, K.DueToday}
  }

  /** Default schedule: which type is due depends on the day alone, so there is at most one per day. */
  lemma DefaultScheduleDays(t: L.Txn, today: int)
    requires !(t.status.Paid? || t.status.Cancelled?)
    ensures DueTypes(t, today, map[]) ==
            if t.dueDate.None? || t.kind.Sale? then []
            else if today == t.dueDate.value - 14 then [K.Due14]
            else if today == t.dueDate.value - 3 then [K.Due3]
            else if today == t.dueDate.value then [K.DueToday]
            else if today > t.dueDate.value && !t.kind.Service? then [K.LateNotice]
            else []
  {
    ScheduledThree(t, today, map[]);
  }

  /** Any schedule: at most one type every day exactly when no two types share a day, nor one the late notice's. */
  lemma OneTypePerDayExactly(t: L.Txn, schedule: Schedule)
    requires L.Schedulable(t) && t.dueDate.Some?
    ensures var a, b := DaysBefore(schedule, K.Due14), DaysBefore(schedule, K.Due3);
            var c := DaysBefore(schedule, K.DueToday);
      (forall today: int :: |DueTypes(t, today, schedule)| <= 1)
      <==> a != b && b != c && a != c && (t.kind.Service? || (a >= 0 && b >= 0 && c >= 0))
  {
    var due, a := t.dueDate.value, DaysBefore(schedule, K.Due14);
    var b, c := DaysBefore(schedule, K.Due3), DaysBefore(schedule, K.DueToday);
    forall today: int
      ensures |DueTypes(t, today, schedule)|
              == (if due - a == today then 1 else 0) + (if due - b == today then 1 else 0)
               + (if due - c == today then 1 else 0)
               + (if due < today && !t.kind.Service? then 1 else 0)
    {
      ScheduledThree(t, today, schedule);
    }
    if forall today: int :: |DueTypes(t, today, schedule)| <= 1 {
      assert |DueTypes(t, due - a, schedule)| <= 1 && |DueTypes(t, due - b, schedule)| <= 1
          && |DueTypes(t, due - c, schedule)| <= 1;
    }
  }

  // ---------------------------------------------------------------- building candidates

  function KeyFor(business: nat, t: Loaded, kind: K.ReminderType): K.Key {
    K.Reminder(business, t.customer, t.txn.contact, t.id, kind, if t.txn.dueDate.Some? then Some(t.iso) else None, "v1")
  }

  function CandidateFor(business: nat, t: Loaded, kind: K.ReminderType): Candidate {
    Candidate(business, Some(t.id), t.customer, t.txn.contact, kind, K.Print(KeyFor(business, t, kind)))
  }

  /** A candidate on its columns; the key names business, customer, contact, transaction, type, due day and "v1". */
  lemma CandidateWrites(business: nat, t: Loaded, kind: K.ReminderType)
    ensures var c := CandidateFor(business, t, kind);
      && c.business == business && c.txn == Some(t.id) && c.customer == t.customer && c.contact == t.txn.contact
      && c.kind == kind
      && c.key == K.Digits(business) + ":" + K.Digits(t.customer) + ":" + K.Digits(t.txn.contact) + ":" + K.Digits(t.id)
                  + ":" + K.TypeName(kind) + ":" + (if t.txn.dueDate == None then "none" else K.IsoDate(t.iso))
                  + ":" + "v1"
  {
    K.ReminderText(business, t.customer, t.txn.contact, t.id, kind, if t.txn.dueDate == None then None else Some(t.iso),
                   "v1");
  }

  function CandidatesFor(business: nat, t: Loaded, kinds: seq<K.ReminderType>): seq<Candidate> {
    seq(|kinds|, i requires 0 <= i < |kinds| => CandidateFor(business, t, kinds[i]))
  }

  function CandidatesOf(business: nat, ts: seq<Loaded>, today: int, schedule: Schedule): seq<Candidate> {
    if ts == [] then []
    else
      var n := |ts| - 1;
      CandidatesOf(business, ts[..n], today, schedule)
      + CandidatesFor(business, ts[n], DueTypes(ts[n].txn, today, schedule))
  }

  /** The types part of `build_candidates`. The pickup branch is there, but a paid transaction never gets that far. */
  method CollectDueTypes(t: L.Txn, today: int, schedule: Schedule) returns (dueTypes: seq<K.ReminderType>)
    requires !(t.status.Paid? || t.status.Cancelled?)
    ensures dueTypes == DueTypes(t, today, schedule)
  {
    var eligible := Eligible(t.kind);
    dueTypes := [];
    var scheduled := [K.Due14, K.Due3, K.DueToday];
    for j := 0 to |scheduled|
      invariant dueTypes == Scheduled(t, scheduled[..j], today, schedule)
    {
      assert scheduled[..j + 1][..j] == scheduled[..j];
      if scheduled[j] in eligible && DueOn(t, scheduled[j], today, schedule) {
        dueTypes := dueTypes + [scheduled[j]];
      }
    }
    assert scheduled[..|scheduled|] == scheduled;
    if K.LateNotice in eligible {
      if LateNoticeEligible(t, today) {
        dueTypes := dueTypes + [K.LateNotice];
      }
    }
    if K.LayawayPickup in eligible {
      if t.status == L.Paid {
        dueTypes := dueTypes + [K.LayawayPickup];
      }
    }
  }

  /** The candidates of one transaction. */
  method BuildFor(business: nat, t: Loaded, kinds: seq<K.ReminderType>) returns (candidates: seq<Candidate>)
    ensures candidates == CandidatesFor(business, t, kinds)
  {
    candidates := [];
    for j := 0 to |kinds|
      invariant candidates == CandidatesFor(business, t, kinds)[..j]
    {
      candidates := candidates + [CandidateFor(business, t, kinds[j])];
    }
  }

  method BuildCandidates(business: nat, ts: seq<Loaded>, today: int, schedule: Schedule)
    returns (candidates: seq<Candidate>)
    ensures candidates == CandidatesOf(business, ts, today, schedule)
  {
    candidates := [];
    for i := 0 to |ts|
      invariant candidates == CandidatesOf(business, ts[..i], today, schedule)
    {
      OneMoreLoaded(business, ts, i, today, schedule);
      if ts[i].txn.status in {L.Paid, L.Cancelled} {
        continue;
      }
      var dueTypes := CollectDueTypes(ts[i].txn, today, schedule);
      var built := BuildFor(business, ts[i], dueTypes);
      candidates := candidates + built;
    }
    assert ts[..|ts|] == ts;
  }

  lemma OneMoreLoaded(business: nat, ts: seq<Loaded>, i: nat, today: int, schedule: Schedule)
    requires i < |ts|
    ensures CandidatesOf(business, ts[..i + 1], today, schedule)
            == CandidatesOf(business, ts[..i], today, schedule)
                + CandidatesFor(business, ts[i], DueTypes(ts[i].txn, today, schedule))
    ensures ts[i].txn.status.Paid? || ts[i].txn.status.Cancelled? ==>
              CandidatesOf(business, ts[..i + 1], today, schedule) == CandidatesOf(business, ts[..i], today, schedule)
  {
    assert ts[..i + 1][..i] == ts[..i];
  }

  // ---------------------------------------------------------------- the scheduler task

  function ShouldSuppress(t: L.Txn, optedIn: bool): Option<string> {
    if t.status.Paid? then Some("transaction_paid")
    else if t.status.Cancelled? then Some("transaction_cancelled")
    else if !optedIn then Some("contact_opted_out")
    else None
  }

  /** The first loaded transaction with this id. */
  function Find(ts: seq<Loaded>, id: nat): (r: Option<Loaded>)
    ensures r.Some? ==> r.value in ts && r.value.id == id
    ensures r.None? ==> forall t :: t in ts ==> t.id != id
  {
    if ts == [] then None else if ts[0].id == id then Some(ts[0]) else Find(ts[1..], id)
  }

  /** A candidate whose contact or transaction cannot be found is dropped without being counted. */
  datatype Fate = Dropped | Suppressed | Kept

  function FateOf(c: Candidate, ts: seq<Loaded>, contacts: map<nat, bool>): Fate {
    if c.contact !in contacts || c.txn.None? then Dropped
    else
      var t := Find(ts, c.txn.value);
      if t.None? then Dropped
      else if ShouldSuppress(t.value.txn, contacts[c.contact]).Some? then Suppressed else Kept
  }

  function KeptOnly(cs: seq<Candidate>, ts: seq<Loaded>, contacts: map<nat, bool>): seq<Candidate> {
    if cs == [] then []
    else
      var n := |cs| - 1;
      KeptOnly(cs[..n], ts, contacts) + if FateOf(cs[n], ts, contacts).Kept? then [cs[n]] else []
  }

  /**
   What the scheduler keeps, on the columns: the contact exists and has not opted out, and the first transaction loaded
   under the candidate's id is neither PAID nor CANCELLED. One that fails only this is counted as suppressed.
   */
  lemma {:induction false} KeptExactly(cs: seq<Candidate>, ts: seq<Loaded>, contacts: map<nat, bool>, c: Candidate)
    ensures c in KeptOnly(cs, ts, contacts)
            <==> c in cs && c.contact in contacts && contacts[c.contact]
                 && exists i :: 0 <= i < |ts| && Some(ts[i].id) == c.txn && ts[i].txn.status != L.Paid
                                && ts[i].txn.status != L.Cancelled && forall j :: 0 <= j < i ==> ts[j].id != ts[i].id
  {
    if cs != [] {
      var n := |cs| - 1;
      KeptExactly(cs[..n], ts, contacts, c);
      assert cs == cs[..n] + [cs[n]];
      if c.txn.Some? {
        FindIsFirst(ts, c.txn.value);
      }
    }
  }

  lemma {:induction false} FindIsFirst(ts: seq<Loaded>, id: nat)
    ensures Find(ts, id).Some? ==>
              exists i :: 0 <= i < |ts| && ts[i] == Find(ts, id).value && forall j :: 0 <= j < i ==> ts[j].id != id
    ensures forall i :: 0 <= i < |ts| && ts[i].id == id && (forall j :: 0 <= j < i ==> ts[j].id != id) ==>
              Find(ts, id) == Some(ts[i])
  {
    if ts != [] && ts[0].id != id {
      FindIsFirst(ts[1..], id);
      var rest := ts[1..];
      if Find(rest, id).Some? {
        var i :| 0 <= i < |rest| && rest[i] == Find(rest, id).value && forall j :: 0 <= j < i ==> rest[j].id != id;
        assert ts[i + 1] == rest[i] && forall j :: 0 < j < i + 1 ==> ts[j] == rest[j - 1];
      }
      forall i | 0 <= i < |ts| && ts[i].id == id && (forall j :: 0 <= j < i ==> ts[j].id != id)
        ensures Find(ts, id) == Some(ts[i])
      {
        assert ts[i] == rest[i - 1] && forall j :: 0 <= j < i - 1 ==> rest[j] == ts[j + 1];
      }
    }
  }

  function SuppressedCount(cs: seq<Candidate>, ts: seq<Loaded>, contacts: map<nat, bool>): nat {
    if cs == [] then 0
    else
      var n := |cs| - 1;
      SuppressedCount(cs[..n], ts, contacts) + if FateOf(cs[n], ts, contacts).Suppressed? then 1 else 0
  }

  /** A candidate counts as suppressed if its contact exists and opted out, or its transaction is PAID or CANCELLED. */
  lemma OneMoreSuppressed(cs: seq<Candidate>, c: Candidate, ts: seq<Loaded>, contacts: map<nat, bool>, i: nat)
    requires c.contact in contacts && i < |ts| && Some(ts[i].id) == c.txn
    requires forall j :: 0 <= j < i ==> ts[j].id != ts[i].id
    ensures SuppressedCount(cs + [c], ts, contacts)
            == SuppressedCount(cs, ts, contacts)
               + if !contacts[c.contact] || ts[i].txn.status in {L.Paid, L.Cancelled} then 1 else 0
  {
    FindIsFirst(ts, ts[i].id);
  }

  /** One whose contact or transaction is missing is dropped without being counted. */
  lemma OneMoreDropped(cs: seq<Candidate>, c: Candidate, ts: seq<Loaded>, contacts: map<nat, bool>)
    requires c.contact !in contacts || forall t :: t in ts ==> Some(t.id) != c.txn
    ensures SuppressedCount(cs + [c], ts, contacts) == SuppressedCount(cs, ts, contacts)
    ensures SuppressedCount([], ts, contacts) == 0
  {
  }

  /** The query of the scheduler: open transactions that are not counter sales. */
  function Loadable(all: seq<Loaded>): seq<Loaded> {
    if all == [] then []
    else
      var n := |all| - 1;
      Loadable(all[..n]) + if L.Schedulable(all[n].txn) then [all[n]] else []
  }

  /** The scheduler loads exactly the transactions that are PENDING, PARTIAL or OVERDUE and not counter sales. */
  lemma {:induction false} LoadedExactly(all: seq<Loaded>, t: Loaded)
    ensures t in Loadable(all)
            <==> t in all && t.txn.status in {L.Pending, L.Partial, L.Overdue} && t.txn.kind != L.Sale
  {
    if all != [] {
      LoadedExactly(all[..|all| - 1], t);
      assert all == all[..|all| - 1] + [all[|all| - 1]];
    }
  }

  /** The values one scheduler run inserts. */
  function Values(business: nat, all: seq<Loaded>, contacts: map<nat, bool>, today: int, now: int): seq<Message> {
    var ts := Loadable(all);
    AllInserted(KeptOnly(CandidatesOf(business, ts, today, map[]), ts, contacts), None, 3, now)
  }

  datatype Counters = Counters(processed: nat, inserted: nat, suppressed: nat, duplicatesSkipped: nat)

  method ComputeReminderCandidates(table: MessageTable, businessFound: bool, business: nat, all: seq<Loaded>,
                                   contacts: map<nat, bool>, today: int, now: int)
    returns (r: Result<Counters>)
    modifies table
    ensures r.Ok? <==> businessFound
    ensures r.Err? ==> table.rows == old(table.rows)
    ensures r.Ok? ==> table.rows == InsertNew(old(table.rows), Values(business, all, contacts, today, now))
    ensures r.Ok? ==> |table.rows| == |old(table.rows)| + r.value.inserted
    ensures r.Ok? ==> r.value.processed == |Loadable(all)|
    ensures var ts := Loadable(all);
      r.Ok? ==> r.value.suppressed == SuppressedCount(CandidatesOf(business, ts, today, map[]), ts, contacts)
    ensures r.Ok? ==> r.value.inserted + r.value.duplicatesSkipped == |Values(business, all, contacts, today, now)|
  {
    if !businessFound {
      return Err("Business not found");
    }
    var ts := Loadable(all);
    if ts == [] {
      return Ok(Counters(0, 0, 0, 0));
    }
    var candidates := BuildCandidates(business, ts, today, map[]);
    var final, suppressed := FilterCandidates(candidates, ts, contacts);
    var inserted, skipped := table.InsertOutboxMessages(final, None, 3, now);
    return Ok(Counters(|ts|, inserted, suppressed, skipped));
  }

  /** The suppression loop of the scheduler. */
  method FilterCandidates(candidates: seq<Candidate>, ts: seq<Loaded>, contacts: map<nat, bool>)
    returns (final: seq<Candidate>, suppressed: nat)
    ensures final == KeptOnly(candidates, ts, contacts)
    ensures suppressed == SuppressedCount(candidates, ts, contacts)
  {
    final, suppressed := [], 0;
    for i := 0 to |candidates|
      invariant final == KeptOnly(candidates[..i], ts, contacts)
      invariant suppressed == SuppressedCount(candidates[..i], ts, contacts)
    {
      assert candidates[..i + 1][..i] == candidates[..i];
      var c := candidates[i];
      if c.contact !in contacts || c.txn.None? {
        continue;
      }
      var t := Find(ts, c.txn.value);
      if t.None? {
        continue;
      }
      var reason := ShouldSuppress(t.value.txn, contacts[c.contact]);
      if reason.Some? {
        suppressed := suppressed + 1;
        continue;
      }
      final := final + [c];
    }
    assert candidates[..|candidates|] == candidates;
  }
}
