/**
 The scheduler over many days: how many reminders one transaction ends up with
 (domain/reminder_service.py, domain/dispatch_service.py, workers/reminders.py).
 */
module ReminderRuns {
  import opened Prelude
  import opened Dispatch
  import opened Retention
  import opened Reminders
  import K = MessageKeys
  import L = Ledger

  const CADENCE: set<K.ReminderType> := {K.Due14, K.Due3, K.DueToday, K.LateNotice}

  /** A cadence reminder of this transaction. */
  predicate Owned(m: Message, id: nat) {
    m.row.transaction == Some(id) && m.kind in CADENCE
  }

  function CountOwned(rows: seq<Message>, id: nat): nat {
    if rows == [] then 0
    else CountOwned(rows[..|rows| - 1], id) + if Owned(rows[|rows| - 1], id) then 1 else 0
  }

  /** Same transaction, possibly at another moment: amounts and status may differ. */
  predicate SameTxn(a: Loaded, b: Loaded) {
    && a.id == b.id && a.customer == b.customer && a.iso == b.iso && a.txn.contact == b.txn.contact
    && a.txn.kind == b.txn.kind && a.txn.dueDate == b.txn.dueDate
  }

  /** The key belongs to some family, and a reminder key to the row's own transaction and type. */
  ghost predicate Labelled(m: Message) {
    exists k: K.Key ::
      && K.WellFormed(k) && m.key == K.Print(k)
      && (k.Reminder? ==> m.row.transaction == Some(k.txn) && m.kind == k.kind)
  }

  /** A row that belongs to the transaction carries one of its keys. */
  ghost predicate Rightful(m: Message, business: nat, t: Loaded) {
    && Labelled(m)
    && (Owned(m, t.id) ==> m.kind in Expected(t.txn.kind) && m.key == K.Print(KeyFor(business, t, m.kind)))
  }

  /** What a scheduler run of any business may load: valid dates, and `t` only as itself in its own business. */
  predicate Consistent(all: seq<Loaded>, of: nat, business: nat, t: Loaded) {
    forall i :: 0 <= i < |all| ==>
                  && K.ValidDate(all[i].iso)
                  && (all[i].id == t.id ==> of == business && SameTxn(all[i], t))
  }

  /** Rows come from scheduler runs, or are somebody else's. */
  ghost predicate Honest(step: Step, business: nat, t: Loaded) {
    step.event.Insert? ==>
      || (forall m :: m in step.event.values ==> Labelled(m) && !Owned(m, t.id))
      || exists of, all, contacts, today ::
           Consistent(all, of, business, t) && step.event.values == Values(of, all, contacts, today, step.now)
  }

  ghost predicate IsHonestRun(tables: seq<seq<Message>>, run: seq<Step>, business: nat, t: Loaded) {
    && IsRun(tables, run) && K.ValidDate(t.iso) && tables[0] == []
    && forall i :: 0 <= i < |run| ==> Honest(run[i], business, t)
  }

  // ---------------------------------------------------------------- what one scheduler run inserts

  lemma {:induction false} LoadableIsSubset(all: seq<Loaded>)
    ensures forall t :: t in Loadable(all) <==> t in all && L.Schedulable(t.txn)
  {
    if all != [] {
      LoadableIsSubset(all[..|all| - 1]);
      assert all == all[..|all| - 1] + [all[|all| - 1]];
    }
  }

  /** A built candidate comes from a loaded transaction and a type that is due. */
  lemma {:induction false} CandidatesComeFrom(business: nat, ts: seq<Loaded>, today: int, c: Candidate)
    requires c in CandidatesOf(business, ts, today, map[])
    ensures exists t :: t in ts && c.kind in DueTypes(t.txn, today, map[]) && c == CandidateFor(business, t, c.kind)
  {
    var n := |ts| - 1;
    if c in CandidatesOf(business, ts[..n], today, map[]) {
      CandidatesComeFrom(business, ts[..n], today, c);
    } else {
      assert ts[n] in ts;
    }
  }

  lemma {:induction false} CandidatesCover(business: nat, ts: seq<Loaded>, today: int, t: Loaded, kind: K.ReminderType)
    requires t in ts && kind in DueTypes(t.txn, today, map[])
    ensures CandidateFor(business, t, kind) in CandidatesOf(business, ts, today, map[])
  {
    var n := |ts| - 1;
    OneMoreLoaded(business, ts, n, today, map[]);
    assert ts[..n + 1] == ts;
    if t == ts[n] {
      OneOfCandidates(business, t, DueTypes(t.txn, today, map[]), kind);
    } else {
      assert t in ts[..n];
      CandidatesCover(business, ts[..n], today, t, kind);
    }
  }

  lemma OneOfCandidates(business: nat, t: Loaded, kinds: seq<K.ReminderType>, kind: K.ReminderType)
    requires kind in kinds
    ensures CandidateFor(business, t, kind) in CandidatesFor(business, t, kinds)
  {
    var j :| 0 <= j < |kinds| && kinds[j] == kind;
    assert CandidatesFor(business, t, kinds)[j] == CandidateFor(business, t, kind);
  }

  lemma {:induction false} KeptIsExact(cs: seq<Candidate>, ts: seq<Loaded>, contacts: map<nat, bool>)
    ensures forall c :: c in KeptOnly(cs, ts, contacts) <==> c in cs && FateOf(c, ts, contacts).Kept?
  {
    if cs != [] {
      KeptIsExact(cs[..|cs| - 1], ts, contacts);
      assert cs == cs[..|cs| - 1] + [cs[|cs| - 1]];
    }
  }

  /** The cadence types are exactly the expected ones that can be due. */
  lemma DueIsExpected(t: L.Txn, today: int, kind: K.ReminderType)
    requires kind in DueTypes(t, today, map[]) && L.Schedulable(t)
    ensures kind in Expected(t.kind) && t.dueDate.Some?
  {
    DefaultScheduleDays(t, today);
  }

  /** Every value a scheduler run inserts is rightful for every transaction. */
  lemma ValuesAreRightful(of: nat, all: seq<Loaded>, contacts: map<nat, bool>, today: int, now: int, business: nat,
                          t: Loaded, m: Message)
    requires Consistent(all, of, business, t) && m in Values(of, all, contacts, today, now)
    ensures Rightful(m, business, t)
  {
    var c, x := ValueComesFrom(of, all, contacts, today, now, m);
    DueIsExpected(x.txn, today, m.kind);
    assert K.WellFormed(KeyFor(of, x, m.kind)) && m.key == K.Print(KeyFor(of, x, m.kind));
    if Owned(m, t.id) {
      assert SameTxn(x, t);
    }
  }

  /** An inserted value is a due candidate of a loaded, open transaction. */
  lemma ValueComesFrom(of: nat, all: seq<Loaded>, contacts: map<nat, bool>, today: int, now: int, m: Message)
    returns (c: Candidate, x: Loaded)
    requires m in Values(of, all, contacts, today, now)
    ensures x in all && L.Schedulable(x.txn) && m.kind in DueTypes(x.txn, today, map[])
    ensures c == CandidateFor(of, x, m.kind) && m == Inserted(c, None, 3, now)
  {
    var ts := Loadable(all);
    var cs := CandidatesOf(of, ts, today, map[]);
    LoadableIsSubset(all);
    KeptIsExact(cs, ts, contacts);
    var kept := KeptOnly(cs, ts, contacts);
    var i :| 0 <= i < |kept| && m == Inserted(kept[i], None, 3, now);
    c := kept[i];
    assert c in kept;
    CandidatesComeFrom(of, ts, today, c);
    x :| x in ts && c.kind in DueTypes(x.txn, today, map[]) && c == CandidateFor(of, x, c.kind);
  }

  // ---------------------------------------------------------------- at most the expected types

  lemma {:induction false} RunKeepsRightful(tables: seq<seq<Message>>, run: seq<Step>, n: nat, business: nat, t: Loaded)
    requires IsHonestRun(tables, run, business, t) && n <= |run|
    ensures forall m :: m in tables[n] ==> Rightful(m, business, t)
  {
    if n > 0 {
      RunKeepsRightful(tables, run, n - 1, business, t);
      forall m | m in tables[n] ensures Rightful(m, business, t) {
        StepKeepsRightful(tables[n - 1], run[n - 1], business, t, m);
      }
    }
  }

  lemma StepKeepsRightful(rows: seq<Message>, step: Step, business: nat, t: Loaded, m: Message)
    requires Enabled(rows, step) && Honest(step, business, t) && m in Apply(rows, step)
    requires forall x :: x in rows ==> Rightful(x, business, t)
    ensures Rightful(m, business, t)
  {
    match step.event {
      case Insert(values) => InsertKeepsRightful(rows, step, business, t, m);
      case Update(at, row) =>
        var k: nat :| k < |rows| && Apply(rows, step)[k] == m;
        assert Rightful(rows[k], business, t);
        var key: K.Key :| K.WellFormed(key) && rows[k].key == K.Print(key)
                          && (key.Reminder? ==> rows[k].row.transaction == Some(key.txn) && rows[k].kind == key.kind);
        assert m.key == K.Print(key);
      case Purge(business) => PurgeIsExact(rows, business, step.now);
    }
  }

  lemma InsertKeepsRightful(rows: seq<Message>, step: Step, business: nat, t: Loaded, m: Message)
    requires step.event.Insert? && Honest(step, business, t) && m in InsertNew(rows, step.event.values)
    requires forall x :: x in rows ==> Rightful(x, business, t)
    ensures Rightful(m, business, t)
  {
    var values := step.event.values;
    InsertIsExact(rows, values);
    var after := InsertNew(rows, values);
    var k: nat :| k < |after| && after[k] == m;
    if k < |rows| {
      assert m == rows[k];
    } else if exists of, all, contacts, today ::
                Consistent(all, of, business, t) && values == Values(of, all, contacts, today, step.now) {
      var of, all, contacts, today :|
        Consistent(all, of, business, t) && values == Values(of, all, contacts, today, step.now);
      ValuesAreRightful(of, all, contacts, today, step.now, business, t, m);
    }
  }

  /** The types of the transaction's reminders in a table. */
  function Kinds(rows: seq<Message>, id: nat): set<K.ReminderType> {
    set m | m in rows && Owned(m, id) :: m.kind
  }

  lemma KindsSnoc(rows: seq<Message>, m: Message, id: nat)
    ensures Kinds(rows + [m], id) == Kinds(rows, id) + if Owned(m, id) then {m.kind} else {}
  {
  }

  ghost predicate DistinctKinds(rows: seq<Message>, id: nat) {
    forall i, j :: 0 <= i < j < |rows| && Owned(rows[i], id) && Owned(rows[j], id) ==> rows[i].kind != rows[j].kind
  }

  lemma OneMoreOwned(front: seq<Message>, last: Message, id: nat)
    requires DistinctKinds(front + [last], id) && CountOwned(front, id) == |Kinds(front, id)|
    ensures CountOwned(front + [last], id) == |Kinds(front + [last], id)|
  {
    var rows := front + [last];
    assert rows[..|rows| - 1] == front;
    KindsSnoc(front, last, id);
    if Owned(last, id) {
      forall i | 0 <= i < |front| && Owned(front[i], id) ensures front[i].kind != last.kind {
        assert rows[i] == front[i] && rows[|front|] == last;
      }
      assert last.kind !in Kinds(front, id);
    }
  }

  /** If no two reminders have the same type, their number is the number of their types. */
  lemma {:induction false} CountIsNumberOfKinds(rows: seq<Message>, id: nat)
    requires DistinctKinds(rows, id)
    ensures CountOwned(rows, id) == |Kinds(rows, id)|
  {
    if rows != [] {
      var front, last := rows[..|rows| - 1], rows[|rows| - 1];
      assert rows == front + [last];
      CountIsNumberOfKinds(front, id);
      OneMoreOwned(front, last, id);
    }
  }

  lemma OwnedKindsDiffer(rows: seq<Message>, business: nat, t: Loaded, i: nat, j: nat)
    requires UniqueKeys(rows) && forall m :: m in rows ==> Rightful(m, business, t)
    requires i < j < |rows| && Owned(rows[i], t.id) && Owned(rows[j], t.id)
    ensures rows[i].kind != rows[j].kind
  {
    assert Rightful(rows[i], business, t) && Rightful(rows[j], business, t);
    assert rows[i].key != rows[j].key;
  }

  /** Four for credit and layaway, three for services, none for counter sales. */
  function Limit(kind: L.TxnType): nat {
    match kind
    case Sale => 0
    case Credit | Layaway => 4
    case Service => 3
  }

  lemma ExpectedCount(kind: L.TxnType)
    ensures |Expected(kind)| == Limit(kind)
  {
  }

  lemma SubsetCount<T>(a: set<T>, b: set<T>)
    requires a <= b
    ensures |a| <= |b| && (|a| == |b| <==> a == b)
  {
    assert b == a + (b - a);
  }

  /** Whatever happens over whatever days, a transaction never has more reminders than its kind allows. */
  lemma AtMostTheCadence(tables: seq<seq<Message>>, run: seq<Step>, n: nat, business: nat, t: Loaded)
    requires IsHonestRun(tables, run, business, t) && n <= |run|
    ensures CountOwned(tables[n], t.id) <= Limit(t.txn.kind)
    ensures CountOwned(tables[n], t.id) == Limit(t.txn.kind) <==> Kinds(tables[n], t.id) == Expected(t.txn.kind)
  {
    RunKeepsRightful(tables, run, n, business, t);
    KeysStayUnique(tables, run, n);
    forall i, j | 0 <= i < j < |tables[n]| && Owned(tables[n][i], t.id) && Owned(tables[n][j], t.id)
      ensures tables[n][i].kind != tables[n][j].kind
    {
      OwnedKindsDiffer(tables[n], business, t, i, j);
    }
    assert DistinctKinds(tables[n], t.id);
    CountIsNumberOfKinds(tables[n], t.id);
    ExpectedCount(t.txn.kind);
    SubsetCount(Kinds(tables[n], t.id), Expected(t.txn.kind));
  }

  // ---------------------------------------------------------------- exactly the expected types

  /** A scheduler run that loads the transaction, open, and finds its contact opted in. */
  ghost predicate Finds(all: seq<Loaded>, contacts: map<nat, bool>, business: nat, t: Loaded) {
    && Consistent(all, business, business, t)
    && (exists x :: x in all && x.id == t.id) && (forall x :: x in all && x.id == t.id ==> L.Schedulable(x.txn))
    && t.txn.contact in contacts && contacts[t.txn.contact]
  }

  /** Some scheduler run of the day found the transaction open and its contact opted in. */
  ghost predicate CoveredOn(run: seq<Step>, n: nat, today: int, business: nat, t: Loaded)
    requires n <= |run|
  {
    exists i: nat, all, contacts ::
      && i < n && run[i].event.Insert? && Finds(all, contacts, business, t)
      && run[i].event.values == Values(business, all, contacts, today, run[i].now)
  }

  /** The day on which a type is due. */
  function DayOf(t: L.Txn, kind: K.ReminderType): int
    requires t.dueDate.Some?
  {
    match kind
    case Due14 => t.dueDate.value - 14
    case Due3 => t.dueDate.value - 3
    case DueToday => t.dueDate.value
    case _ => t.dueDate.value + 1
  }

  lemma DueOnItsDay(t: L.Txn, kind: K.ReminderType)
    requires L.Schedulable(t) && t.dueDate.Some? && kind in Expected(t.kind)
    ensures kind in DueTypes(t, DayOf(t, kind), map[])
  {
    DefaultScheduleDays(t, DayOf(t, kind));
    assert [kind][0] == kind;
  }

  /** A candidate whose transaction is found open and whose contact has opted in is kept. */
  lemma OpenAndOptedInIsKept(ts: seq<Loaded>, contacts: map<nat, bool>, c: Candidate)
    requires c.txn.Some? && c.contact in contacts && contacts[c.contact]
    requires exists x :: x in ts && x.id == c.txn.value
    requires forall x :: x in ts ==> L.Schedulable(x.txn)
    ensures FateOf(c, ts, contacts).Kept?
  {
  }

  lemma InsertedIsHeld(cs: seq<Candidate>, now: int, c: Candidate)
    requires c in cs
    ensures Holds(AllInserted(cs, None, 3, now), c.key)
  {
    var i :| 0 <= i < |cs| && cs[i] == c;
    assert AllInserted(cs, None, 3, now)[i].key == c.key;
  }

  lemma DueIsKept(ts: seq<Loaded>, contacts: map<nat, bool>, business: nat, x: Loaded, today: int, kind: K.ReminderType)
    requires x in ts && kind in DueTypes(x.txn, today, map[])
    requires forall y :: y in ts ==> L.Schedulable(y.txn)
    requires x.txn.contact in contacts && contacts[x.txn.contact]
    ensures CandidateFor(business, x, kind) in KeptOnly(CandidatesOf(business, ts, today, map[]), ts, contacts)
  {
    CandidatesCover(business, ts, today, x, kind);
    OpenAndOptedInIsKept(ts, contacts, CandidateFor(business, x, kind));
    KeptIsExact(CandidatesOf(business, ts, today, map[]), ts, contacts);
  }

  /** On its day, a covering run offers the type. */
  lemma CoveringRunOffers(all: seq<Loaded>, contacts: map<nat, bool>, now: int, business: nat, t: Loaded,
                          kind: K.ReminderType)
    requires t.txn.dueDate.Some? && kind in Expected(t.txn.kind) && Finds(all, contacts, business, t)
    ensures Holds(Values(business, all, contacts, DayOf(t.txn, kind), now), K.Print(KeyFor(business, t, kind)))
  {
    var today, ts := DayOf(t.txn, kind), Loadable(all);
    var x :| x in all && x.id == t.id;
    assert SameTxn(x, t);
    LoadableIsSubset(all);
    DueOnItsDay(x.txn, kind);
    DueIsKept(ts, contacts, business, x, today, kind);
    var kept := KeptOnly(CandidatesOf(business, ts, today, map[]), ts, contacts);
    InsertedIsHeld(kept, now, CandidateFor(business, x, kind));
    assert CandidateFor(business, x, kind).key == K.Print(KeyFor(business, t, kind));
  }

  /** Without purges a key once held stays held. */
  lemma {:induction false} HeldStaysHeld(tables: seq<seq<Message>>, run: seq<Step>, i: nat, n: nat, key: string)
    requires IsRun(tables, run) && i <= n <= |run| && Holds(tables[i], key)
    requires forall j :: 0 <= j < |run| ==> !run[j].event.Purge?
    ensures Holds(tables[n], key)
    decreases n
  {
    if i < n {
      HeldStaysHeld(tables, run, i, n - 1, key);
      var k :| 0 <= k < |tables[n - 1]| && tables[n - 1][k].key == key;
      if run[n - 1].event.Insert? {
        InsertIsExact(tables[n - 1], run[n - 1].event.values);
      }
      assert tables[n][k].key == key;
    }
  }

  /** The row that holds a reminder key of the transaction is its reminder of that type. */
  lemma HolderIsOwned(rows: seq<Message>, business: nat, t: Loaded, kind: K.ReminderType)
    requires (forall m :: m in rows ==> Rightful(m, business, t)) && K.ValidDate(t.iso) && kind in CADENCE
    requires Holds(rows, K.Print(KeyFor(business, t, kind)))
    ensures kind in Kinds(rows, t.id)
  {
    var i :| 0 <= i < |rows| && rows[i].key == K.Print(KeyFor(business, t, kind));
    assert rows[i] in rows;
    var k: K.Key :| K.WellFormed(k) && rows[i].key == K.Print(k)
                    && (k.Reminder? ==> rows[i].row.transaction == Some(k.txn) && rows[i].kind == k.kind);
    K.KeysNeverCollide(k, KeyFor(business, t, kind));
  }

  /**
   A transaction that stays open and whose contact stays opted in, with the scheduler running at least once on
   every day from fourteen days before the due date to the day after: exactly one reminder of every expected
   type, however often the scheduler ran and whatever else was inserted or updated.
   */
  lemma FullCoverageIsExact(tables: seq<seq<Message>>, run: seq<Step>, n: nat, business: nat, t: Loaded)
    requires IsHonestRun(tables, run, business, t) && n <= |run|
    requires t.txn.dueDate.Some? && forall j :: 0 <= j < |run| ==> !run[j].event.Purge?
    requires forall today :: t.txn.dueDate.value - 14 <= today <= t.txn.dueDate.value + 1 ==>
             CoveredOn(run, n, today, business, t)
    ensures CountOwned(tables[n], t.id) == Limit(t.txn.kind)
    ensures Kinds(tables[n], t.id) == Expected(t.txn.kind)
  {
    RunKeepsRightful(tables, run, n, business, t);
    forall kind | kind in Expected(t.txn.kind) ensures kind in Kinds(tables[n], t.id) {
      CoveredTypeIsHeld(tables, run, n, business, t, kind);
      HolderIsOwned(tables[n], business, t, kind);
    }
    assert Kinds(tables[n], t.id) <= Expected(t.txn.kind);
    AtMostTheCadence(tables, run, n, business, t);
  }

  lemma CoveredTypeIsHeld(tables: seq<seq<Message>>, run: seq<Step>, n: nat, business: nat, t: Loaded,
                          kind: K.ReminderType)
    requires IsRun(tables, run) && n <= |run| && t.txn.dueDate.Some? && kind in Expected(t.txn.kind)
    requires forall j :: 0 <= j < |run| ==> !run[j].event.Purge?
    requires CoveredOn(run, n, DayOf(t.txn, kind), business, t)
    ensures Holds(tables[n], K.Print(KeyFor(business, t, kind)))
  {
    var today := DayOf(t.txn, kind);
    var i: nat, all, contacts :|
      && i < n && run[i].event.Insert? && Finds(all, contacts, business, t)
      && run[i].event.values == Values(business, all, contacts, today, run[i].now);
    CoveringRunOffers(all, contacts, run[i].now, business, t, kind);
    InsertIsExact(tables[i], run[i].event.values);
    HeldStaysHeld(tables, run, i + 1, n, K.Print(KeyFor(business, t, kind)));
  }
}
