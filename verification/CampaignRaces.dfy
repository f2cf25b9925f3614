/**
 Campaign tasks that overlap (domain/campaign_service.py, workers/campaigns.py): a task counts before every member
 without a lock and inserts at its end, with the time its transaction began. When does the weekly cap survive?
 */
module CampaignRaces {
  import opened Prelude
  import opened Dispatch
  import C = Campaigns
  import K = MessageKeys
  import R = Retention

  /** An open task: the time its transaction began, which `func.now()` yields, and the candidates built so far. */
  datatype Task = Task(start: int, business: nat, campaign: nat, maxPerWeek: int, sendDate: K.Date,
                       picked: seq<C.CampaignCandidate>)

  /** The outbox, every promotional row ever created, purged or not, and the open tasks. */
  datatype World = World(rows: seq<Message>, log: seq<Message>, tasks: map<nat, Task>)

  datatype Event =
    | Begin(task: nat, business: nat, campaign: nat, maxPerWeek: int, sendDate: K.Date)
    | Consider(task: nat, member: C.Member)     // one round of the loop over the segment
    | Finish(task: nat)                         // insert and commit
    | Abort(task: nat)
    | Other(change: R.Event)                    // other kinds of messages, status changes, purges

  datatype Step = Step(now: int, event: Event)

  function Pick(t: Task, customer: nat): C.CampaignCandidate {
    C.CampaignCandidate(t.business, t.campaign, customer, customer,
                        C.KeyFor(t.business, t.campaign, customer, t.sendDate))
  }

  /** One member: opted in, and the business under the cap in what is committed at this moment. */
  function Considered(rows: seq<Message>, t: Task, member: C.Member, now: int): Task {
    if member.optedIn && C.CanSend(rows, t.business, t.maxPerWeek, now) then
      t.(picked := t.picked + [Pick(t, member.customer)])
    else t
  }

  function Values(t: Task, now: int): seq<Message> {
    AllInserted(C.AllConverted(t.picked), Some(now), 3, t.start)
  }

  /** The rows that inserting `values` creates. */
  ghost function Created(rows: seq<Message>, values: seq<Message>): seq<Message> {
    InsertIsExact(rows, values);
    InsertNew(rows, values)[|rows|..]
  }

  predicate Enabled(w: World, s: Step) {
    match s.event
    case Begin(task, _, _, _, _) => task !in w.tasks
    case Consider(task, _) => task in w.tasks
    case Finish(task) => task in w.tasks
    case Abort(task) => task in w.tasks
    case Other(change) =>
      && R.Enabled(w.rows, R.Step(s.now, change))
      && (change.Insert? ==> forall m :: m in change.values ==> !m.kind.Promo?)
  }

  ghost function After(w: World, s: Step): World
    requires Enabled(w, s)
  {
    match s.event
    case Begin(task, business, campaign, maxPerWeek, sendDate) =>
      w.(tasks := w.tasks[task := Task(s.now, business, campaign, maxPerWeek, sendDate, [])])
    case Consider(task, member) => w.(tasks := w.tasks[task := Considered(w.rows, w.tasks[task], member, s.now)])
    case Finish(task) =>
      var values := Values(w.tasks[task], s.now);
      World(InsertNew(w.rows, values), w.log + Created(w.rows, values), w.tasks - {task})
    case Abort(task) => w.(tasks := w.tasks - {task})
    case Other(change) => w.(rows := R.Apply(w.rows, R.Step(s.now, change)))
  }

  const EMPTY := World([], [], map[])

  /** The worlds before, between and after the steps of a run in which time does not run backwards. */
  ghost predicate IsRun(ws: seq<World>, run: seq<Step>, cap: nat) {
    && |ws| == |run| + 1 && ws[0] == EMPTY
    && (forall i :: 0 <= i < |run| ==> Enabled(ws[i], run[i]) && ws[i + 1] == After(ws[i], run[i]))
    && (forall i, j :: 0 <= i <= j < |run| ==> run[i].now <= run[j].now)
    && (forall i :: 0 <= i < |run| ==> run[i].event.Begin? ==> run[i].event.maxPerWeek <= cap)
  }

  /** A task that considers all members at the moment it began builds what the campaign service builds. */
  lemma {:induction false} UndisturbedTaskIsProcess(rows: seq<Message>, t: Task, members: seq<C.Member>)
    requires t.picked == []
    ensures ConsideredAll(rows, t, members).picked
            == C.Built(rows, members, t.business, t.campaign, t.maxPerWeek, t.sendDate, t.start)
    ensures ConsideredAll(rows, t, members).(picked := []) == t
    ensures Values(ConsideredAll(rows, t, members), t.start)
            == C.Values(rows, members, t.business, t.campaign, t.maxPerWeek, t.sendDate, t.start)
  {
    if members != [] {
      UndisturbedTaskIsProcess(rows, t, members[..|members| - 1]);
    }
  }

  function ConsideredAll(rows: seq<Message>, t: Task, members: seq<C.Member>): Task {
    if members == [] then t
    else
      var n := |members| - 1;
      Considered(rows, ConsideredAll(rows, t, members[..n]), members[n], t.start)
  }

  // ---------------------------------------------------------------- what every run keeps

  predicate TaskOk(t: Task, cap: nat, now: int) {
    && t.start <= now && t.maxPerWeek <= cap
    && forall i :: 0 <= i < |t.picked| ==> t.picked[i] == Pick(t, t.picked[i].customer)
  }

  ghost predicate Good(w: World, cap: nat, now: int) {
    C.Dated(w.rows, now) && UniqueKeys(w.rows) && forall t | t in w.tasks :: TaskOk(w.tasks[t], cap, now)
  }

  lemma FinishKeepsDated(rows: seq<Message>, t: Task, cap: nat, now: int)
    requires C.Dated(rows, now) && TaskOk(t, cap, now)
    ensures C.Dated(InsertNew(rows, Values(t, now)), now)
  {
    var after, values := InsertNew(rows, Values(t, now)), Values(t, now);
    InsertIsExact(rows, values);
    forall m | m in after ensures m in rows || m in values {
      var k: nat :| k < |after| && after[k] == m;
      assert k < |rows| ==> m == rows[k];
    }
  }

  lemma StepKeepsGood(w: World, s: Step, cap: nat, before: int)
    requires Good(w, cap, before) && before <= s.now && Enabled(w, s)
    requires s.event.Begin? ==> s.event.maxPerWeek <= cap
    ensures Good(After(w, s), cap, s.now)
  {
    match s.event {
      case Finish(task) =>
        InsertIsExact(w.rows, Values(w.tasks[task], s.now));
        FinishKeepsDated(w.rows, w.tasks[task], cap, s.now);
      case Other(change) =>
        C.StepKeepsDated(w.rows, R.Step(s.now, change), before);
        R.StepKeepsUnique(w.rows, R.Step(s.now, change));
      case _ =>
    }
  }

  lemma {:induction false} RunKeepsGood(ws: seq<World>, run: seq<Step>, cap: nat, n: nat, now: int)
    requires IsRun(ws, run, cap) && n <= |run| && (n > 0 ==> run[n - 1].now <= now)
    ensures Good(ws[n], cap, now)
  {
    if n > 0 {
      RunKeepsGood(ws, run, cap, n - 1, run[n - 1].now);
      StepKeepsGood(ws[n - 1], run[n - 1], cap, run[n - 1].now);
    }
  }

  /** What a commit creates: promotional rows of the task, dated when it began, for different contacts. */
  lemma CreatedByTask(rows: seq<Message>, t: Task, cap: nat, now: int)
    requires UniqueKeys(rows) && TaskOk(t, cap, now)
    ensures var created := Created(rows, Values(t, now));
      && (created != [] ==> t.picked != [])
      && (forall m :: m in created ==> m.kind.Promo? && m.row.business == t.business && m.createdAt == t.start)
      && (forall i, j :: 0 <= i < j < |created| ==> created[i].contact != created[j].contact)
  {
    var values, after := Values(t, now), InsertNew(rows, Values(t, now));
    InsertIsExact(rows, values);
    forall m | m in values
      ensures m.kind.Promo? && m.row.business == t.business && m.createdAt == t.start
              && m.key == C.KeyFor(t.business, t.campaign, m.contact, t.sendDate)
    {
      var i: nat :| i < |values| && values[i] == m;
      assert t.picked[i] == Pick(t, t.picked[i].customer);
    }
    var created := Created(rows, values);
    forall i | 0 <= i < |created| ensures created[i] in values && created[i] == after[|rows| + i] {
    }
  }

  // ---------------------------------------------------------------- the cap, exactly

  /** One contact's promotional rows in a closed window of the given length. */
  function Window(business: nat, contact: nat, start: int, length: nat): C.Filter {
    C.Filter(business, Some(contact), start, Some(start + length))
  }

  /** No contact ever got more than `cap` promotional rows of a business in any window of that length. */
  ghost predicate CapKept(log: seq<Message>, cap: nat, length: nat) {
    forall business: nat, contact: nat, start: int :: C.Count(log, Window(business, contact, start, length)) <= cap
  }

  /** When a task commits, its contact is still below the cap in every window around each row it creates. */
  ghost predicate Roomy(w: World, s: Step, cap: nat, length: nat)
    requires Enabled(w, s)
  {
    s.event.Finish? ==>
      var created := Created(w.rows, Values(w.tasks[s.event.task], s.now));
      forall m, start | m in created && start <= m.createdAt <= start + length ::
        C.Count(w.log, Window(m.row.business, m.contact, start, length)) < cap
  }

  lemma {:induction false} CountsOne(rows: seq<Message>, m: Message, f: C.Filter)
    requires m in rows && C.Matches(m, f)
    ensures C.Count(rows, f) >= 1
  {
    var n := |rows| - 1;
    if rows[n] != m {
      assert m in rows[..n];
      CountsOne(rows[..n], m, f);
    }
  }

  lemma {:induction false} SomeMatches(rows: seq<Message>, f: C.Filter) returns (m: Message)
    requires C.Count(rows, f) > 0
    ensures m in rows && C.Matches(m, f)
  {
    var n := |rows| - 1;
    if C.Matches(rows[n], f) {
      m := rows[n];
    } else {
      m := SomeMatches(rows[..n], f);
    }
  }

  /** Adding rows of different contacts keeps the cap exactly if it was kept and there is room around each. */
  lemma AddingKeepsCapExactly(log: seq<Message>, created: seq<Message>, cap: nat, length: nat)
    requires forall m :: m in created ==> m.kind.Promo?
    requires forall i, j :: 0 <= i < j < |created| ==> created[i].contact != created[j].contact
    ensures CapKept(log + created, cap, length)
            <==> CapKept(log, cap, length)
                 && forall m, start | m in created && start <= m.createdAt <= start + length ::
                      C.Count(log, Window(m.row.business, m.contact, start, length)) < cap
  {
    forall f: C.Filter ensures C.Count(log + created, f) == C.Count(log, f) + C.Count(created, f) {
      C.CountAppend(log, created, f);
    }
    if CapKept(log + created, cap, length) {
      forall business: nat, contact: nat, start: int
        ensures C.Count(log, Window(business, contact, start, length)) <= cap
      {
        assert C.Count(log + created, Window(business, contact, start, length)) <= cap;
      }
      forall m, start | m in created && start <= m.createdAt <= start + length
        ensures C.Count(log, Window(m.row.business, m.contact, start, length)) < cap
      {
        assert C.Count(log + created, Window(m.row.business, m.contact, start, length)) <= cap;
        CountsOne(created, m, Window(m.row.business, m.contact, start, length));
      }
    } else if CapKept(log, cap, length) {
      var business: nat, contact: nat, start: int :|
        C.Count(log + created, Window(business, contact, start, length)) > cap;
      var f := Window(business, contact, start, length);
      assert C.Count(log, f) <= cap;
      C.CountAtMostOne(created, f);
      var m := SomeMatches(created, f);
      assert f == Window(m.row.business, m.contact, start, length) && C.Count(log, f) >= cap;
    }
  }

  lemma StepKeepsCapExactly(w: World, s: Step, cap: nat, length: nat)
    requires Good(w, cap, s.now) && Enabled(w, s)
    ensures CapKept(After(w, s).log, cap, length) <==> CapKept(w.log, cap, length) && Roomy(w, s, cap, length)
  {
    if s.event.Finish? {
      var t := w.tasks[s.event.task];
      CreatedByTask(w.rows, t, cap, s.now);
      AddingKeepsCapExactly(w.log, Created(w.rows, Values(t, s.now)), cap, length);
    }
  }

  /**
   However the statements of campaign tasks interleave with each other and with everything else: no contact ever gets
   more than `cap` promotional rows in any window of the given length if and only if every commit finds room.
   */
  lemma {:induction false} CapHoldsExactly(ws: seq<World>, run: seq<Step>, cap: nat, length: nat, n: nat)
    requires IsRun(ws, run, cap) && n <= |run|
    ensures CapKept(ws[n].log, cap, length) <==> forall i :: 0 <= i < n ==> Roomy(ws[i], run[i], cap, length)
  {
    if n > 0 {
      CapHoldsExactly(ws, run, cap, length, n - 1);
      RunKeepsGood(ws, run, cap, n - 1, run[n - 1].now);
      StepKeepsCapExactly(ws[n - 1], run[n - 1], cap, length);
    }
  }

  // ---------------------------------------------------------------- tasks that are alone

  /** Of the last thirty days, the outbox still holds every promotional row ever created. */
  lemma {:induction false} TableHoldsLog(ws: seq<World>, run: seq<Step>, cap: nat, n: nat, now: int, f: C.Filter)
    requires IsRun(ws, run, cap) && n <= |run| && (n > 0 ==> run[n - 1].now <= now) && f.from >= now - 30 * DAY
    ensures C.Count(ws[n].rows, f) == C.Count(ws[n].log, f)
  {
    if n > 0 {
      var w, s := ws[n - 1], run[n - 1];
      TableHoldsLog(ws, run, cap, n - 1, now, f);
      RunKeepsGood(ws, run, cap, n - 1, s.now);
      match s.event {
        case Finish(task) => CreatedCounts(w.rows, Values(w.tasks[task], s.now), f);
          C.CountAppend(w.log, Created(w.rows, Values(w.tasks[task], s.now)), f);
        case Other(change) => OtherKeepsCount(w.rows, R.Step(s.now, change), f);
        case _ =>
      }
    }
  }

  lemma CreatedCounts(rows: seq<Message>, values: seq<Message>, f: C.Filter)
    ensures C.Count(InsertNew(rows, values), f) == C.Count(rows, f) + C.Count(Created(rows, values), f)
  {
    InsertIsExact(rows, values);
    assert InsertNew(rows, values) == rows + Created(rows, values);
    C.CountAppend(rows, Created(rows, values), f);
  }

  lemma OtherKeepsCount(rows: seq<Message>, s: R.Step, f: C.Filter)
    requires R.Enabled(rows, s) && (s.event.Insert? ==> forall m :: m in s.event.values ==> !m.kind.Promo?)
    requires C.Dated(rows, s.now) && f.from >= s.now - 30 * DAY
    ensures C.Count(R.Apply(rows, s), f) == C.Count(rows, f)
  {
    match s.event {
      case Insert(values) =>
        InsertIsExact(rows, values);
        CreatedCounts(rows, values, f);
        C.CountNone(Created(rows, values), f);
      case Update(at, row) => C.UpdateKeepsCount(rows, at, row.(updatedAt := s.now), f);
      case Purge(business) => C.CountPurged(rows, business, s.now, f);
    }
  }

  /** The task counts at most `delay` after its transaction began. */
  predicate Prompt(w: World, s: Step, delay: nat)
    requires Enabled(w, s)
  {
    s.event.Consider? ==> s.now <= w.tasks[s.event.task].start + delay
  }

  /** While the task commits, no other task of its business has built a candidate yet. */
  predicate Alone(w: World, s: Step)
    requires Enabled(w, s)
  {
    s.event.Finish? ==>
      forall u | u in w.tasks && u != s.event.task && w.tasks[u].business == w.tasks[s.event.task].business ::
        w.tasks[u].picked == []
  }

  ghost predicate AllPrompt(ws: seq<World>, run: seq<Step>, cap: nat, delay: nat)
    requires IsRun(ws, run, cap)
  {
    forall i :: 0 <= i < |run| ==> Prompt(ws[i], run[i], delay)
  }

  ghost predicate AllAlone(ws: seq<World>, run: seq<Step>, cap: nat)
    requires IsRun(ws, run, cap)
  {
    forall i :: 0 <= i < |run| ==> Alone(ws[i], run[i])
  }

  /** Promotional rows of the business from a moment on. */
  function Since(business: nat, from: int): C.Filter {
    C.Filter(business, None, from, None)
  }

  /** What a task has counted still holds: too few rows since `length` before it began. */
  predicate Reserved(log: seq<Message>, t: Task, cap: nat, length: nat) {
    t.picked != [] ==> C.Count(log, Since(t.business, t.start - length)) < cap
  }

  lemma CountReserves(ws: seq<World>, run: seq<Step>, cap: nat, delay: nat, n: nat)
    requires IsRun(ws, run, cap) && n < |run| && run[n].event.Consider? && Prompt(ws[n], run[n], delay)
    requires delay <= C.WEEK && Reserved(ws[n].log, ws[n].tasks[run[n].event.task], cap, C.WEEK - delay)
    ensures Reserved(ws[n].log, ws[n + 1].tasks[run[n].event.task], cap, C.WEEK - delay)
  {
    var w, s := ws[n], run[n];
    var t, recent := w.tasks[s.event.task], C.Recent(w.tasks[s.event.task].business, s.now);
    RunKeepsGood(ws, run, cap, n, s.now);
    if C.CanSend(w.rows, t.business, t.maxPerWeek, s.now) {
      TableHoldsLog(ws, run, cap, n, s.now, recent);
      C.CountIsMonotone(w.log, Since(t.business, t.start - (C.WEEK - delay)), recent);
    }
  }

  lemma OtherBusinessUncounted(log: seq<Message>, created: seq<Message>, f: C.Filter)
    requires forall m :: m in created ==> m.row.business != f.business
    ensures C.Count(log + created, f) == C.Count(log, f)
  {
    C.CountAppend(log, created, f);
    C.CountNone(created, f);
  }

  lemma AloneKeepsReserved(w: World, s: Step, u: nat, cap: nat, length: nat)
    requires Good(w, cap, s.now) && Enabled(w, s) && s.event.Finish? && Alone(w, s)
    requires u in w.tasks && u != s.event.task && Reserved(w.log, w.tasks[u], cap, length)
    ensures Reserved(After(w, s).log, w.tasks[u], cap, length)
  {
    var t, other := w.tasks[s.event.task], w.tasks[u];
    if other.picked != [] {
      assert other.business != t.business;
      CreatedByTask(w.rows, t, cap, s.now);
      OtherBusinessUncounted(w.log, Created(w.rows, Values(t, s.now)), Since(other.business, other.start - length));
    }
  }

  lemma StepReserves(ws: seq<World>, run: seq<Step>, cap: nat, delay: nat, n: nat, u: nat)
    requires IsRun(ws, run, cap) && n < |run| && delay <= C.WEEK && u in ws[n + 1].tasks
    requires Prompt(ws[n], run[n], delay) && Alone(ws[n], run[n])
    requires u in ws[n].tasks ==> Reserved(ws[n].log, ws[n].tasks[u], cap, C.WEEK - delay)
    ensures Reserved(ws[n + 1].log, ws[n + 1].tasks[u], cap, C.WEEK - delay)
  {
    if run[n].event.Consider? && u == run[n].event.task {
      CountReserves(ws, run, cap, delay, n);
    } else if run[n].event.Finish? {
      RunKeepsGood(ws, run, cap, n, run[n].now);
      AloneKeepsReserved(ws[n], run[n], u, cap, C.WEEK - delay);
    }
  }

  lemma {:induction false} RunReserves(ws: seq<World>, run: seq<Step>, cap: nat, delay: nat, n: nat)
    requires IsRun(ws, run, cap) && n <= |run| && delay <= C.WEEK
    requires AllPrompt(ws, run, cap, delay) && AllAlone(ws, run, cap)
    ensures forall u | u in ws[n].tasks :: Reserved(ws[n].log, ws[n].tasks[u], cap, C.WEEK - delay)
  {
    if n > 0 {
      RunReserves(ws, run, cap, delay, n - 1);
      forall u | u in ws[n].tasks ensures Reserved(ws[n].log, ws[n].tasks[u], cap, C.WEEK - delay) {
        StepReserves(ws, run, cap, delay, n - 1, u);
      }
    }
  }

  lemma ReservedIsRoomy(w: World, s: Step, cap: nat, length: nat)
    requires Good(w, cap, s.now) && Enabled(w, s)
    requires s.event.Finish? ==> Reserved(w.log, w.tasks[s.event.task], cap, length)
    ensures Roomy(w, s, cap, length)
  {
    if s.event.Finish? {
      var t := w.tasks[s.event.task];
      var created := Created(w.rows, Values(t, s.now));
      CreatedByTask(w.rows, t, cap, s.now);
      forall m, start | m in created && start <= m.createdAt <= start + length
        ensures C.Count(w.log, Window(m.row.business, m.contact, start, length)) < cap
      {
        C.CountIsMonotone(w.log, Window(m.row.business, m.contact, start, length), Since(t.business, t.start - length));
      }
    }
  }

  /**
   While no task commits between another one's count and commit, the cap holds, in windows of a week less the longest
   delay between the beginning of a task and its counts.
   */
  lemma TasksAloneKeepCap(ws: seq<World>, run: seq<Step>, cap: nat, delay: nat)
    requires IsRun(ws, run, cap) && delay <= C.WEEK && AllPrompt(ws, run, cap, delay) && AllAlone(ws, run, cap)
    ensures CapKept(ws[|run|].log, cap, C.WEEK - delay)
  {
    forall i | 0 <= i < |run| ensures Roomy(ws[i], run[i], cap, C.WEEK - delay) {
      RunReserves(ws, run, cap, delay, i);
      RunKeepsGood(ws, run, cap, i, run[i].now);
      ReservedIsRoomy(ws[i], run[i], cap, C.WEEK - delay);
    }
    CapHoldsExactly(ws, run, cap, C.WEEK - delay, |run|);
  }

  // ---------------------------------------------------------------- two runs in which the cap is broken

  const MONDAY := K.Date(2024, 1, 1)

  /** A task with a cap of one that has picked customer 7. */
  function Picked(campaign: nat, start: int): Task {
    var t := Task(start, 1, campaign, 1, MONDAY, []);
    t.(picked := [Pick(t, 7)])
  }

  function Offer(campaign: nat, start: int, now: int): Message {
    Inserted(C.Converted(Pick(Picked(campaign, start), 7)), Some(now), 3, start)
  }

  /** No message of this campaign is in the table. */
  ghost predicate Unsent(rows: seq<Message>, campaign: nat) {
    forall m :: m in rows ==> exists other: nat :: other != campaign && m.key == C.KeyFor(1, other, 7, MONDAY)
  }

  /** The messages of two campaigns for one customer have different keys, so both are inserted. */
  lemma FinishInserts(rows: seq<Message>, campaign: nat, start: int, now: int)
    requires Unsent(rows, campaign)
    ensures var m, values := Offer(campaign, start, now), Values(Picked(campaign, start), now);
      InsertNew(rows, values) == rows + [m] && Created(rows, values) == [m]
  {
    var m, values := Offer(campaign, start, now), Values(Picked(campaign, start), now);
    assert values == [m] && values[..0] == [];
    if Holds(rows, m.key) {
      var i :| 0 <= i < |rows| && rows[i].key == m.key;
      assert rows[i] in rows;
      var other: nat :| other != campaign && rows[i].key == C.KeyFor(1, other, 7, MONDAY);
      K.KeysNeverCollide(K.Campaign(1, other, 7, MONDAY), K.Campaign(1, campaign, 7, MONDAY));
    }
    assert InsertNew(rows, []) == rows;
    assert InsertNew(rows, values) == rows + [m];
  }

  /** Two such messages in one window are one too many; after a week the first is no longer counted. */
  lemma TwoBreakCap(start: int, now: int, length: nat)
    requires 0 <= start <= length
    ensures !CapKept([Offer(1, 0, 0)] + [Offer(2, start, now)], 1, length)
  {
    var a, b, f := Offer(1, 0, 0), Offer(2, start, now), Window(1, 7, 0, length);
    assert [a, b][..1] == [a] && [a][..0] == [];
    assert C.Count([a], f) == 1;
    assert C.Count([a, b], f) == 2 && [a] + [b] == [a, b];
  }

  lemma PickOne(rows: seq<Message>, campaign: nat, start: int, now: int)
    requires C.CanSend(rows, 1, 1, now)
    ensures Considered(rows, Task(start, 1, campaign, 1, MONDAY, []), C.Member(7, true), now) == Picked(campaign, start)
  {
  }

  /** The run goes up to `w` and up to `now`; its tasks count within `delay`. */
  ghost predicate Upto(ws: seq<World>, run: seq<Step>, delay: nat, w: World, now: int) {
    IsRun(ws, run, 1) && AllPrompt(ws, run, 1, delay) && ws[|run|] == w && (run != [] ==> run[|run| - 1].now <= now)
  }

  /** One step more. */
  lemma Extend(ws: seq<World>, run: seq<Step>, delay: nat, w: World, s: Step)
    requires Upto(ws, run, delay, w, s.now) && Enabled(w, s) && Prompt(w, s, delay)
    requires s.event.Begin? ==> s.event.maxPerWeek <= 1
    ensures Upto(ws + [After(w, s)], run + [s], delay, After(w, s), s.now)
    ensures AllAlone(ws, run, 1) && Alone(w, s) ==> AllAlone(ws + [After(w, s)], run + [s], 1)
  {
  }

  /** A task begins and counts. */
  lemma ThenPick(ws: seq<World>, run: seq<Step>, delay: nat, w: World, k: nat, campaign: nat, start: int, now: int)
    returns (ws': seq<World>, run': seq<Step>)
    requires Upto(ws, run, delay, w, start) && start <= now <= start + delay
    requires k !in w.tasks && C.CanSend(w.rows, 1, 1, now)
    ensures Upto(ws', run', delay, w.(tasks := w.tasks[k := Picked(campaign, start)]), now)
    ensures AllAlone(ws, run, 1) ==> AllAlone(ws', run', 1)
  {
    var begin, consider := Step(start, Begin(k, 1, campaign, 1, MONDAY)), Step(now, Consider(k, C.Member(7, true)));
    var w1 := After(w, begin);
    PickOne(w.rows, campaign, start, now);
    Extend(ws, run, delay, w, begin);
    Extend(ws + [w1], run + [begin], delay, w1, consider);
    ws', run' := ws + [w1] + [After(w1, consider)], run + [begin] + [consider];
    assert After(w1, consider) == w.(tasks := w.tasks[k := Picked(campaign, start)]);
  }

  /** It commits. */
  lemma ThenFinish(ws: seq<World>, run: seq<Step>, delay: nat, w: World, k: nat, campaign: nat, start: int, now: int)
    returns (ws': seq<World>, run': seq<Step>)
    requires Upto(ws, run, delay, w, now) && k in w.tasks && w.tasks[k] == Picked(campaign, start)
    requires Unsent(w.rows, campaign)
    ensures var m := Offer(campaign, start, now);
      Upto(ws', run', delay, World(w.rows + [m], w.log + [m], w.tasks - {k}), now)
    ensures AllAlone(ws, run, 1) && w.tasks.Keys == {k} ==> AllAlone(ws', run', 1)
  {
    var s := Step(now, Finish(k));
    FinishInserts(w.rows, campaign, start, now);
    Extend(ws, run, delay, w, s);
    ws', run' := ws + [After(w, s)], run + [s];
  }

  /** A task that runs to its end before the next one begins. */
  lemma ThenSolo(ws: seq<World>, run: seq<Step>, delay: nat, rows: seq<Message>, campaign: nat, start: int, now: int)
    returns (ws': seq<World>, run': seq<Step>)
    requires Upto(ws, run, delay, World(rows, rows, map[]), start) && start <= now <= start + delay
    requires C.CanSend(rows, 1, 1, now) && Unsent(rows, campaign) && AllAlone(ws, run, 1)
    ensures var after := rows + [Offer(campaign, start, now)];
      Upto(ws', run', delay, World(after, after, map[]), now) && AllAlone(ws', run', 1)
  {
    var tasks := map[0 := Picked(campaign, start)];
    ws', run' := ThenPick(ws, run, delay, World(rows, rows, map[]), 0, campaign, start, now);
    ws', run' := ThenFinish(ws', run', delay, World(rows, rows, tasks), 0, campaign, start, now);
    assert tasks - {0} == map[];
  }

  /** Two tasks that count before either commits. */
  lemma BothPick() returns (ws: seq<World>, run: seq<Step>)
    ensures Upto(ws, run, 0, World([], [], map[0 := Picked(1, 0), 1 := Picked(2, 0)]), 0)
  {
    ws, run := ThenPick([EMPTY], [], 0, EMPTY, 0, 1, 0, 0);
    ws, run := ThenPick(ws, run, 0, World([], [], map[0 := Picked(1, 0)]), 1, 2, 0, 0);
  }

  /** Both commit. */
  lemma BothFinish(ws: seq<World>, run: seq<Step>) returns (ws': seq<World>, run': seq<Step>)
    requires Upto(ws, run, 0, World([], [], map[0 := Picked(1, 0), 1 := Picked(2, 0)]), 0)
    ensures var rows := [Offer(1, 0, 0)] + [Offer(2, 0, 0)];
      Upto(ws', run', 0, World(rows, rows, map[]), 0)
  {
    var a, both, second := [Offer(1, 0, 0)], map[0 := Picked(1, 0), 1 := Picked(2, 0)], map[1 := Picked(2, 0)];
    ws', run' := ThenFinish(ws, run, 0, World([], [], both), 0, 1, 0, 0);
    assert both - {0} == second && [] + a == a;
    ws', run' := ThenFinish(ws', run', 0, World(a, a, second), 1, 2, 0, 0);
    assert second - {1} == map[];
  }

  /** Two tasks with a cap of one count before either commits: the contact gets two messages of the same moment. */
  lemma OverlapBreaksCap(length: nat) returns (ws: seq<World>, run: seq<Step>)
    ensures IsRun(ws, run, 1) && AllPrompt(ws, run, 1, 0) && !CapKept(ws[|run|].log, 1, length)
  {
    ws, run := BothPick();
    ws, run := BothFinish(ws, run);
    TwoBreakCap(0, 0, length);
  }

  /** Two tasks of which the second counts when the first one's message is no longer counted. */
  lemma SoloTwice(delay: nat, start: int, now: int) returns (ws: seq<World>, run: seq<Step>)
    requires 0 <= start <= now <= start + delay && now > C.WEEK
    ensures var rows := [Offer(1, 0, 0)] + [Offer(2, start, now)];
      Upto(ws, run, delay, World(rows, rows, map[]), now) && AllAlone(ws, run, 1)
  {
    ws, run := ThenSolo([EMPTY], [], delay, [], 1, 0, 0);
    assert [] + [Offer(1, 0, 0)] == [Offer(1, 0, 0)];
    ws, run := ThenSolo(ws, run, delay, [Offer(1, 0, 0)], 2, start, now);
  }

  /** The loss of the delay is real: tasks that are alone break the cap in windows one second longer. */
  lemma DelayIsTight(delay: nat) returns (ws: seq<World>, run: seq<Step>)
    requires 0 < delay <= C.WEEK
    ensures IsRun(ws, run, 1) && AllPrompt(ws, run, 1, delay) && AllAlone(ws, run, 1)
    ensures !CapKept(ws[|run|].log, 1, C.WEEK - delay + 1)
  {
    var start := C.WEEK - delay + 1;
    ws, run := SoloTwice(delay, start, C.WEEK + 1);
    TwoBreakCap(start, C.WEEK + 1, start);
  }
}
