/**
 Promotional campaigns (domain/campaign_service.py, workers/campaigns.py): the weekly frequency cap over
 whole runs of campaign tasks, other inserts, status changes and purges.
 */
module Campaigns {
  import opened Prelude
  import opened Dispatch
  import opened Retention
  import K = MessageKeys
  import Outbox

  datatype CampaignStatus = Draft | Scheduled | Running | Paused | Completed | Cancelled

  /** A segment member joined with its customer and contact; the join takes the contact with the customer's id. */
  datatype Member = Member(customer: nat, optedIn: bool)

  datatype CampaignCandidate = CampaignCandidate(business: nat, campaign: nat, customer: nat, contact: nat, key: string)

  const WEEK := 7 * DAY

  // ---------------------------------------------------------------- counting promotional rows

  /** Promotional rows of one business, of one contact if given, created from `from` on and up to `to` if given. */
  datatype Filter = Filter(business: nat, contact: Option<nat>, from: int, to: Option<int>)

  predicate Matches(m: Message, f: Filter) {
    && m.kind.Promo? && m.row.business == f.business && m.createdAt >= f.from
    && (f.contact.Some? ==> m.contact == f.contact.value)
    && (f.to.Some? ==> m.createdAt <= f.to.value)
  }

  function Count(rows: seq<Message>, f: Filter): nat {
    if rows == [] then 0
    else Count(rows[..|rows| - 1], f) + if Matches(rows[|rows| - 1], f) then 1 else 0
  }

  /** The rows the cap counts: every promotional row of the business in the last seven days, whoever got it. */
  function Recent(business: nat, now: int): Filter {
    Filter(business, None, now - WEEK, None)
  }

  /** One contact's promotional rows in the seven days from `start`, both ends included. */
  function Week(business: nat, contact: nat, start: int): Filter {
    Filter(business, Some(contact), start, Some(start + WEEK))
  }

  predicate CanSend(rows: seq<Message>, business: nat, maxPerWeek: int, now: int) {
    Count(rows, Recent(business, now)) < maxPerWeek
  }

  lemma {:induction false} CountAppend(a: seq<Message>, b: seq<Message>, f: Filter)
    ensures Count(a + b, f) == Count(a, f) + Count(b, f)
  {
    if b == [] {
      assert a + b == a;
    } else {
      var n := |b| - 1;
      CountAppend(a, b[..n], f);
      assert (a + b)[..|a| + n] == a + b[..n];
    }
  }

  /** A filter that matches more counts more. */
  lemma {:induction false} CountIsMonotone(rows: seq<Message>, f: Filter, g: Filter)
    requires forall m :: m in rows && Matches(m, f) ==> Matches(m, g)
    ensures Count(rows, f) <= Count(rows, g)
  {
    if rows != [] {
      CountIsMonotone(rows[..|rows| - 1], f, g);
      assert rows[|rows| - 1] in rows;
    }
  }

  /** The count behind the cap is never less than what any one contact received in that week. */
  lemma CapCountsAtLeastTheContact(rows: seq<Message>, business: nat, contact: nat, start: int, now: int)
    requires start >= now - WEEK
    ensures Count(rows, Week(business, contact, start)) <= Count(rows, Recent(business, now))
  {
  }

  /** The rows a cap per contact would count: what the cap is documented to be. */
  function RecentTo(business: nat, contact: nat, now: int): Filter {
    Filter(business, Some(contact), now - WEEK, None)
  }

  /** Promotional rows of the business since `from` that went to somebody else. */
  function CountOthers(rows: seq<Message>, business: nat, contact: nat, from: int): nat {
    if rows == [] then 0
    else
      var n := |rows| - 1;
      CountOthers(rows[..n], business, contact, from)
      + if Matches(rows[n], Filter(business, None, from, None)) && rows[n].contact != contact then 1 else 0
  }

  lemma {:induction false} CountSplits(rows: seq<Message>, business: nat, contact: nat, now: int)
    ensures Count(rows, Recent(business, now))
            == Count(rows, RecentTo(business, contact, now)) + CountOthers(rows, business, contact, now - WEEK)
  {
    if rows != [] {
      CountSplits(rows[..|rows| - 1], business, contact, now);
    }
  }

  /**
   The business-wide answer differs from the answer per contact exactly when the contact is below the cap and the
   messages to others fill it up; it then refuses a contact that the documented cap would let through.
   */
  lemma CapAnswersDifferExactly(rows: seq<Message>, business: nat, contact: nat, maxPerWeek: int, now: int)
    ensures var mine := Count(rows, RecentTo(business, contact, now));
      CanSend(rows, business, maxPerWeek, now) != (mine < maxPerWeek)
      <==> mine < maxPerWeek <= mine + CountOthers(rows, business, contact, now - WEEK)
    ensures CanSend(rows, business, maxPerWeek, now) ==> Count(rows, RecentTo(business, contact, now)) < maxPerWeek
  {
    CountSplits(rows, business, contact, now);
  }

  /** With a cap of one, a customer who never got a message is refused because another one did. */
  lemma CapRefusesOthers(m: Message, other: nat, start: int)
    requires m.kind.Promo? && m.contact != other
    ensures !CanSend([m], m.row.business, 1, m.createdAt) && Count([m], Week(m.row.business, other, start)) == 0
  {
  }

  // ---------------------------------------------------------------- one campaign run

  function KeyFor(business: nat, campaign: nat, customer: nat, sendDate: K.Date): string {
    K.Print(K.Campaign(business, campaign, customer, sendDate))
  }

  function Candidates(members: seq<Member>, business: nat, campaign: nat, sendDate: K.Date): seq<CampaignCandidate> {
    if members == [] then []
    else
      var n := |members| - 1;
      var c := members[n].customer;
      Candidates(members[..n], business, campaign, sendDate)
      + if members[n].optedIn then
          [CampaignCandidate(business, campaign, c, c, KeyFor(business, campaign, c, sendDate))]
        else []
  }

  /** `build_campaign_candidates`: nothing is written while it loops, so the cap decides for all members alike. */
  function Built(rows: seq<Message>, members: seq<Member>, business: nat, campaign: nat, maxPerWeek: int,
                 sendDate: K.Date, now: int)
    : seq<CampaignCandidate>
  {
    if CanSend(rows, business, maxPerWeek, now) then Candidates(members, business, campaign, sendDate) else []
  }

  /** The conversion for the dispatch service; a promotion belongs to no transaction. */
  function Converted(c: CampaignCandidate): Candidate {
    Candidate(c.business, None, c.customer, c.contact, K.Promo, c.key)
  }

  function AllConverted(cs: seq<CampaignCandidate>): seq<Candidate> {
    seq(|cs|, i requires 0 <= i < |cs| => Converted(cs[i]))
  }

  /** The values one campaign run inserts. */
  function Values(rows: seq<Message>, members: seq<Member>, business: nat, campaign: nat, maxPerWeek: int,
                  sendDate: K.Date, now: int)
    : seq<Message>
  {
    AllInserted(AllConverted(Built(rows, members, business, campaign, maxPerWeek, sendDate, now)), None, 3, now)
  }

  class Campaign {
    const id: nat
    const business: nat
    const maxPerCustomerPerWeek: int
    var status: CampaignStatus
    var totalCandidates: nat

    constructor (id: nat, business: nat, maxPerCustomerPerWeek: int, status: CampaignStatus)
      ensures this.id == id && this.business == business && this.maxPerCustomerPerWeek == maxPerCustomerPerWeek
      ensures this.status == status && totalCandidates == 0
    {
      this.id, this.business, this.maxPerCustomerPerWeek := id, business, maxPerCustomerPerWeek;
      this.status, totalCandidates := status, 0;
    }

    /** Counts the business's promotional rows of the week; a positive answer means no contact has reached the cap. */
    method EnforceFrequencyCap(table: MessageTable, now: int) returns (canSend: bool)
      ensures canSend == CanSend(table.rows, business, maxPerCustomerPerWeek, now)
      ensures canSend ==>
                forall f: Filter | f.contact.Some? && f == Week(business, f.contact.value, now - WEEK) ::
                  Count(table.rows, f) < maxPerCustomerPerWeek
    {
      var cutoff, recent := now - WEEK, 0;
      for i := 0 to |table.rows|
        invariant recent == Count(table.rows[..i], Recent(business, now))
      {
        assert table.rows[..i + 1][..i] == table.rows[..i];
        var m := table.rows[i];
        if m.row.business == business && m.kind == K.Promo && m.createdAt >= cutoff {
          recent := recent + 1;
        }
      }
      assert table.rows[..|table.rows|] == table.rows;
      forall f: Filter | f.contact.Some? && f == Week(business, f.contact.value, now - WEEK)
        ensures Count(table.rows, f) <= recent
      {
        CapCountsAtLeastTheContact(table.rows, business, f.contact.value, now - WEEK, now);
      }
      return recent < maxPerCustomerPerWeek;
    }

    method BuildCampaignCandidates(table: MessageTable, members: seq<Member>, sendDate: K.Date, now: int)
      returns (candidates: seq<CampaignCandidate>)
      modifies this
      ensures candidates == Built(table.rows, members, business, id, maxPerCustomerPerWeek, sendDate, now)
      ensures totalCandidates == |candidates| && status == Running
    {
      candidates := [];
      ghost var allowed := CanSend(table.rows, business, maxPerCustomerPerWeek, now);
      for i := 0 to |members|
        invariant candidates == if allowed then Candidates(members[..i], business, id, sendDate) else []
      {
        assert members[..i + 1][..i] == members[..i];
        if !members[i].optedIn {
          continue;
        }
        var canSend := EnforceFrequencyCap(table, now);
        if !canSend {
          continue;
        }
        var customer := members[i].customer;
        var key := KeyFor(business, id, customer, sendDate);
        candidates := candidates + [CampaignCandidate(business, id, customer, customer, key)];
      }
      assert members[..|members|] == members;
      totalCandidates := |candidates|;
      status := Running;
    }

    /** Inserts only for a scheduled or running campaign; otherwise reports an error and changes nothing. */
    method Process(table: MessageTable, members: seq<Member>, sendDate: K.Date, now: int)
      returns (ok: bool, candidates: nat, inserted: nat, duplicatesSkipped: nat)
      modifies this, table
      ensures ok == (old(status).Scheduled? || old(status).Running?)
      ensures !ok ==> table.rows == old(table.rows) && status == old(status) && totalCandidates == old(totalCandidates)
      ensures !ok ==> candidates == inserted == duplicatesSkipped == 0
      ensures ok ==> table.rows == InsertNew(old(table.rows),
                       Values(old(table.rows), members, business, id, maxPerCustomerPerWeek, sendDate, now))
      ensures ok ==> status == Running && totalCandidates == candidates == inserted + duplicatesSkipped
      ensures |table.rows| == |old(table.rows)| + inserted
    {
      if status !in {Scheduled, Running} {
        return false, 0, 0, 0;
      }
      var built := BuildCampaignCandidates(table, members, sendDate, now);
      var converted := [];
      for i := 0 to |built|
        invariant converted == AllConverted(built)[..i]
        invariant table.rows == old(table.rows)
      {
        converted := converted + [Converted(built[i])];
      }
      assert converted == AllConverted(built);
      inserted, duplicatesSkipped := table.InsertOutboxMessages(converted, None, 3, now);
      totalCandidates := |built|;
      status := Running;
      return true, |built|, inserted, duplicatesSkipped;
    }
  }

  /** Whatever a campaign run offers is promotional, is for one contact per key, and comes only while under the cap. */
  lemma ValuesAreCapped(rows: seq<Message>, members: seq<Member>, business: nat, campaign: nat, maxPerWeek: int,
                        sendDate: K.Date, now: int)
    ensures var values := Values(rows, members, business, campaign, maxPerWeek, sendDate, now);
      && (values != [] ==> CanSend(rows, business, maxPerWeek, now))
      && forall m :: m in values ==>
           && New(m, now) && m.kind.Promo? && m.row.business == business
           && m.key == KeyFor(business, campaign, m.contact, sendDate)
  {
    CandidatesAreKeyed(members, business, campaign, sendDate);
  }

  lemma {:induction false} CandidatesAreKeyed(members: seq<Member>, business: nat, campaign: nat, sendDate: K.Date)
    ensures forall c :: c in Candidates(members, business, campaign, sendDate) ==>
              && c.business == business && c.contact == c.customer
              && c.key == KeyFor(business, campaign, c.contact, sendDate)
  {
    if members != [] {
      CandidatesAreKeyed(members[..|members| - 1], business, campaign, sendDate);
    }
  }

  // ---------------------------------------------------------------- whole runs

  /** A step that creates promotional rows is a campaign run with a cap of at most `cap`. */
  ghost predicate Honest(rows: seq<Message>, step: Step, cap: int) {
    step.event.Insert? ==>
      || (forall m :: m in step.event.values ==> !m.kind.Promo?)
      || exists members, business, campaign, maxPerWeek, sendDate ::
           && maxPerWeek <= cap
           && step.event.values == Values(rows, members, business, campaign, maxPerWeek, sendDate, step.now)
  }

  ghost predicate IsHonestRun(tables: seq<seq<Message>>, run: seq<Step>, cap: int) {
    && IsRun(tables, run) && tables[0] == [] && cap >= 0
    && forall i :: 0 <= i < |run| ==> Honest(tables[i], run[i], cap)
  }

  /** The rows step `i` created. */
  ghost function Added(tables: seq<seq<Message>>, run: seq<Step>, i: nat): seq<Message>
    requires IsRun(tables, run) && i < |run|
  {
    if run[i].event.Insert? then
      InsertIsExact(tables[i], run[i].event.values);
      tables[i + 1][|tables[i]|..]
    else []
  }

  /** Every row the first `n` steps ever created, purged or not. */
  ghost function Ever(tables: seq<seq<Message>>, run: seq<Step>, n: nat): seq<Message>
    requires IsRun(tables, run) && n <= |run|
  {
    if n == 0 then [] else Ever(tables, run, n - 1) + Added(tables, run, n - 1)
  }

  /** No row was last touched before it was created, nor after `now`. */
  ghost predicate Dated(rows: seq<Message>, now: int) {
    forall m :: m in rows ==> m.createdAt <= m.row.updatedAt <= now
  }

  lemma {:induction false} CountSurviving(rows: seq<Message>, statuses: set<Outbox.Status>, cutoff: int,
                                          business: Option<nat>, f: Filter)
    requires (forall m :: m in rows ==> m.createdAt <= m.row.updatedAt) && f.from >= cutoff
    ensures Count(Surviving(rows, statuses, cutoff, business), f) == Count(rows, f)
  {
    if rows != [] {
      var n := |rows| - 1;
      CountSurviving(rows[..n], statuses, cutoff, business, f);
      assert rows[n] in rows;
      CountAppend(Surviving(rows[..n], statuses, cutoff, business),
                  if Doomed(rows[n], statuses, cutoff, business) then [] else [rows[n]], f);
      assert [rows[n]][..0] == [];
    }
  }

  /** A purge never deletes a row that a cap still counts. */
  lemma CountPurged(rows: seq<Message>, business: Option<nat>, now: int, f: Filter)
    requires (forall m :: m in rows ==> m.createdAt <= m.row.updatedAt) && f.from >= now - 30 * DAY
    ensures Count(Purged(rows, business, now), f) == Count(rows, f)
  {
    var first := Surviving(rows, {Outbox.Sent, Outbox.Delivered}, now - 90 * DAY, business);
    SurvivorsAreSubsequence(rows, {Outbox.Sent, Outbox.Delivered}, now - 90 * DAY, business);
    assert forall m :: m in first ==> m.createdAt <= m.row.updatedAt;
    CountSurviving(rows, {Outbox.Sent, Outbox.Delivered}, now - 90 * DAY, business, f);
    CountSurviving(first, {Outbox.Failed}, now - 30 * DAY, business, f);
  }

  lemma {:induction false} CountSameColumns(a: seq<Message>, b: seq<Message>, f: Filter)
    requires |a| == |b| && forall i :: 0 <= i < |a| ==> (Matches(a[i], f) <==> Matches(b[i], f))
    ensures Count(a, f) == Count(b, f)
  {
    if a != [] {
      CountSameColumns(a[..|a| - 1], b[..|b| - 1], f);
    }
  }

  lemma UpdateKeepsCount(rows: seq<Message>, at: nat, row: Outbox.Row, f: Filter)
    requires at < |rows| && row.business == rows[at].row.business
    ensures Count(rows[at := rows[at].(row := row)], f) == Count(rows, f)
  {
    CountSameColumns(rows[at := rows[at].(row := row)], rows, f);
  }

  lemma StepKeepsDated(rows: seq<Message>, step: Step, before: int)
    requires Enabled(rows, step) && Dated(rows, before) && before <= step.now
    ensures Dated(Apply(rows, step), step.now)
  {
    var after := Apply(rows, step);
    forall m | m in after ensures m.createdAt <= m.row.updatedAt <= step.now {
      match step.event {
        case Insert(values) =>
          InsertIsExact(rows, values);
          var k: nat :| k < |after| && after[k] == m;
          assert k < |rows| ==> m == rows[k];
        case Update(at, row) =>
          assert rows[at] in rows;
          var k: nat :| k < |after| && after[k] == m;
          assert k != at ==> m == rows[k];
        case Purge(business) => PurgeIsExact(rows, business, step.now);
      }
    }
  }

  lemma {:induction false} RunKeepsDated(tables: seq<seq<Message>>, run: seq<Step>, n: nat, now: int)
    requires IsRun(tables, run) && tables[0] == [] && n <= |run|
    requires n > 0 ==> run[n - 1].now <= now
    ensures Dated(tables[n], now)
  {
    if n > 0 {
      RunKeepsDated(tables, run, n - 1, run[n - 1].now);
      StepKeepsDated(tables[n - 1], run[n - 1], run[n - 1].now);
    }
  }

  /** Of the last thirty days, the table still holds all that was ever created. */
  lemma {:induction false} TableHoldsRecentHistory(tables: seq<seq<Message>>, run: seq<Step>, n: nat, now: int,
                                                   f: Filter)
    requires IsRun(tables, run) && tables[0] == [] && n <= |run|
    requires (n > 0 ==> run[n - 1].now <= now) && f.from >= now - 30 * DAY
    ensures Count(tables[n], f) == Count(Ever(tables, run, n), f)
  {
    if n > 0 {
      var rows, step := tables[n - 1], run[n - 1];
      assert n > 1 ==> run[n - 2].now <= run[n - 1].now;
      TableHoldsRecentHistory(tables, run, n - 1, now, f);
      CountAppend(Ever(tables, run, n - 1), Added(tables, run, n - 1), f);
      match step.event {
        case Insert(values) =>
          InsertIsExact(rows, values);
          assert tables[n] == rows + Added(tables, run, n - 1);
          CountAppend(rows, Added(tables, run, n - 1), f);
        case Update(at, row) =>
          UpdateKeepsCount(rows, at, row.(updatedAt := step.now), f);
        case Purge(business) =>
          RunKeepsDated(tables, run, n - 1, step.now);
          CountPurged(rows, business, step.now, f);
      }
    }
  }

  // ---------------------------------------------------------------- the cap

  /** One campaign run adds at most one row per contact. */
  lemma RunAddsOnePerContact(rows: seq<Message>, members: seq<Member>, business: nat, campaign: nat, maxPerWeek: int,
                             sendDate: K.Date, now: int)
    requires UniqueKeys(rows)
    ensures var after := InsertNew(rows, Values(rows, members, business, campaign, maxPerWeek, sendDate, now));
      forall i, j :: |rows| <= i < j < |after| ==> after[i].contact != after[j].contact
  {
    InsertIsExact(rows, Values(rows, members, business, campaign, maxPerWeek, sendDate, now));
    ValuesAreCapped(rows, members, business, campaign, maxPerWeek, sendDate, now);
  }

  lemma {:induction false} CountAtMostOne(rows: seq<Message>, f: Filter)
    requires f.contact.Some? && forall i, j :: 0 <= i < j < |rows| ==> rows[i].contact != rows[j].contact
    ensures Count(rows, f) <= 1
  {
    if rows != [] {
      var n := |rows| - 1;
      CountAtMostOne(rows[..n], f);
      if Matches(rows[n], f) {
        CountNone(rows[..n], f);
      }
    }
  }

  lemma {:induction false} CountNone(rows: seq<Message>, f: Filter)
    requires forall m :: m in rows ==> !Matches(m, f)
    ensures Count(rows, f) == 0
  {
    if rows != [] {
      CountNone(rows[..|rows| - 1], f);
      assert rows[|rows| - 1] in rows;
    }
  }

  /** A step creates a promotional row for a contact only while the week before holds fewer than `cap`. */
  lemma StepRespectsCap(tables: seq<seq<Message>>, run: seq<Step>, cap: int, n: nat, business: nat, contact: nat,
                        start: int)
    requires IsHonestRun(tables, run, cap) && n < |run|
    ensures var added := Count(Added(tables, run, n), Week(business, contact, start));
      && added <= 1
      && (added == 1 ==> start >= run[n].now - WEEK && Count(tables[n], Recent(business, run[n].now)) < cap)
  {
    var added, f, step := Added(tables, run, n), Week(business, contact, start), run[n];
    if !step.event.Insert? {
      assert added == [];
    } else {
      var values := step.event.values;
      KeysStayUnique(tables, run, n);
      InsertIsExact(tables[n], values);
      assert forall m :: m in added ==> m in values;
      if forall m :: m in values ==> !m.kind.Promo? {
        CountNone(added, f);
      } else {
        CampaignStepRespectsCap(tables[n], added, step, cap, business, contact, start);
      }
    }
  }

  lemma CampaignStepRespectsCap(rows: seq<Message>, added: seq<Message>, step: Step, cap: int, business: nat,
                                contact: nat, start: int)
    requires step.event.Insert? && Honest(rows, step, cap) && !(forall m :: m in step.event.values ==> !m.kind.Promo?)
    requires UniqueKeys(rows) && rows <= InsertNew(rows, step.event.values)
             && added == InsertNew(rows, step.event.values)[|rows|..]
    requires forall m :: m in added ==> m in step.event.values
    ensures var count := Count(added, Week(business, contact, start));
      && count <= 1
      && (count == 1 ==> start >= step.now - WEEK && Count(rows, Recent(business, step.now)) < cap)
  {
    var f := Week(business, contact, start);
    var members, b, campaign, maxPerWeek, sendDate :|
      maxPerWeek <= cap && step.event.values == Values(rows, members, b, campaign, maxPerWeek, sendDate, step.now);
    ValuesAreCapped(rows, members, b, campaign, maxPerWeek, sendDate, step.now);
    RunAddsOnePerContact(rows, members, b, campaign, maxPerWeek, sendDate, step.now);
    CountAtMostOne(added, f);
    if b != business || start < step.now - WEEK {
      CountNone(added, f);
    }
  }

  /**
   However campaigns, other inserts, updates and purges follow one another, no contact is ever created more
   promotional messages in any seven days, both ends included, than the largest cap.
   */
  lemma {:induction false} WeeklyCapHolds(tables: seq<seq<Message>>, run: seq<Step>, cap: int, n: nat, business: nat,
                                          contact: nat, start: int)
    requires IsHonestRun(tables, run, cap) && n <= |run|
    ensures Count(Ever(tables, run, n), Week(business, contact, start)) <= cap
  {
    if n > 0 {
      var f, now, before := Week(business, contact, start), run[n - 1].now, Ever(tables, run, n - 1);
      WeeklyCapHolds(tables, run, cap, n - 1, business, contact, start);
      StepRespectsCap(tables, run, cap, n - 1, business, contact, start);
      CountAppend(before, Added(tables, run, n - 1), f);
      if Count(Added(tables, run, n - 1), f) == 1 {
        TableHoldsRecentHistory(tables, run, n - 1, now, Recent(business, now));
        CapCountsAtLeastTheContact(before, business, contact, start, now);
      }
    }
  }
}
