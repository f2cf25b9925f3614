/**
 The circuit breaker for one integration key (infra/circuit_breaker.py): three Redis keys, and what
 they mean in terms of everything that has happened so far.

 Times are Unix seconds. A trace lists the questions, successes and failures of all callers in the order
 in which they reached Redis.
 */
module CircuitBreaker {
  import opened Prelude

  datatype State = Closed | Open | HalfOpen

  /** The Redis keys `state`, `failures` and `opened_at`; None is an absent key. */
  datatype Keys = Keys(state: Option<State>, failures: Option<nat>, openedAt: Option<int>)

  datatype Settings = Settings(threshold: int, cooldown: int)

  datatype Event = Check(now: int) | Success | Failure(now: int)

  // ---------------------------------------------------------------- the machine

  /** `can_execute`: the answer and the keys afterwards. */
  function CanExecute(k: Keys, now: int, cfg: Settings): (bool, Keys) {
    if k.state.None? || k.state.value.Closed? then (true, k)
    else if k.state.value.HalfOpen? then (true, k)
    else if k.openedAt.None? || now - k.openedAt.value >= cfg.cooldown then (true, k.(state := Some(HalfOpen)))
    else (false, k)
  }

  function Opened(k: Keys, now: int): Keys {
    k.(state := Some(Open), openedAt := Some(now))
  }

  /** `record_failure`. */
  function Failed(k: Keys, now: int, cfg: Settings): Keys {
    if k.state == Some(HalfOpen) then Opened(k, now)
    else
      var failures := (if k.failures.Some? then k.failures.value else 0) + 1;
      var counted := k.(failures := Some(failures));
      if failures >= cfg.threshold then Opened(counted, now) else counted
  }

  function Step(k: Keys, e: Event, cfg: Settings): Keys {
    match e
    case Check(now) => CanExecute(k, now, cfg).1
    case Success => Keys(Some(Closed), None, None)
    case Failure(now) => Failed(k, now, cfg)
  }

  const FRESH := Keys(None, None, None)

  function Run(trace: seq<Event>, cfg: Settings): Keys {
    if trace == [] then FRESH else Step(Run(trace[..|trace| - 1], cfg), trace[|trace| - 1], cfg)
  }

  // ---------------------------------------------------------------- the trace alone

  /** Failures since the last success. */
  function Failures(trace: seq<Event>): nat {
    if trace == [] then 0
    else
      var before := trace[..|trace| - 1];
      match trace[|trace| - 1]
      case Check(_) => Failures(before)
      case Success => 0
      case Failure(_) => Failures(before) + 1
  }

  /** Time of the last failure since the last success. */
  function LastFailure(trace: seq<Event>): (t: Option<int>)
    ensures t.Some? <==> Failures(trace) > 0
  {
    if trace == [] then None
    else
      match trace[|trace| - 1]
      case Check(_) => LastFailure(trace[..|trace| - 1])
      case Success => None
      case Failure(now) => Some(now)
  }

  /** A threshold below one trips on the first failure, like one. */
  predicate Tripped(trace: seq<Event>, cfg: Settings) {
    Failures(trace) >= Max(cfg.threshold, 1)
  }

  /** Whether a caller arriving at `now` is let through, by the trace alone. */
  predicate Admits(trace: seq<Event>, now: int, cfg: Settings)
    decreases trace, 1
  {
    || !Tripped(trace, cfg)
    || now - LastFailure(trace).value >= cfg.cooldown
    || AdmittedSinceFailure(trace, cfg)
  }

  /** Some caller has been let through since the last failure. */
  predicate AdmittedSinceFailure(trace: seq<Event>, cfg: Settings)
    decreases trace, 0
  {
    trace != []
    && var before := trace[..|trace| - 1];
    match trace[|trace| - 1]
    case Check(now) => AdmittedSinceFailure(before, cfg) || Admits(before, now, cfg)
    case Success => false
    case Failure(_) => false
  }

  /** Failures that advance the counter: all but those of callers let through a tripped breaker. */
  function Counted(trace: seq<Event>, cfg: Settings): nat {
    if trace == [] then 0
    else
      var before := trace[..|trace| - 1];
      match trace[|trace| - 1]
      case Check(_) => Counted(before, cfg)
      case Success => 0
      case Failure(_) =>
        if Tripped(before, cfg) && AdmittedSinceFailure(before, cfg) then Counted(before, cfg)
        else Counted(before, cfg) + 1
  }

  // ---------------------------------------------------------------- the two agree

  /** The stored keys are determined by the trace. */
  ghost predicate Linked(k: Keys, trace: seq<Event>, cfg: Settings) {
    && k.failures == (if Counted(trace, cfg) == 0 then None else Some(Counted(trace, cfg)))
    && if Tripped(trace, cfg) then
         && k.openedAt == LastFailure(trace)
         && k.state == Some(if AdmittedSinceFailure(trace, cfg) then HalfOpen else Open)
         && Counted(trace, cfg) >= Max(cfg.threshold, 1)
       else
         && k.openedAt == None
         && (k.state == None || k.state == Some(Closed))
         && Counted(trace, cfg) == Failures(trace)
  }

  lemma {:induction false} RunIsLinked(trace: seq<Event>, cfg: Settings)
    ensures Linked(Run(trace, cfg), trace, cfg)
  {
    if trace != [] {
      RunIsLinked(trace[..|trace| - 1], cfg);
    }
  }

  /** The breaker's answer after any history is the trace predicate. */
  lemma AnswerIsTraceAnswer(trace: seq<Event>, now: int, cfg: Settings)
    ensures CanExecute(Run(trace, cfg), now, cfg).0 == Admits(trace, now, cfg)
  {
    RunIsLinked(trace, cfg);
  }

  function Checks(times: seq<int>): seq<Event> {
    if times == [] then [] else Checks(times[..|times| - 1]) + [Check(times[|times| - 1])]
  }

  lemma {:induction false} ChecksKeepAdmitting(trace: seq<Event>, now: int, later: seq<int>, cfg: Settings)
    requires Admits(trace, now, cfg)
    ensures AdmittedSinceFailure(trace + [Check(now)] + Checks(later), cfg)
  {
    var more := trace + [Check(now)] + Checks(later);
    if later == [] {
      assert more[..|more| - 1] == trace;
    } else {
      var n := |later| - 1;
      ChecksKeepAdmitting(trace, now, later[..n], cfg);
      assert more[..|more| - 1] == trace + [Check(now)] + Checks(later[..n]);
    }
  }

  /** Once a caller has been let through, every caller is until the next report, whatever the time. */
  lemma HalfOpenAdmitsEveryone(trace: seq<Event>, now: int, later: seq<int>, t: int, cfg: Settings)
    requires CanExecute(Run(trace, cfg), now, cfg).0
    ensures CanExecute(Run(trace + [Check(now)] + Checks(later), cfg), t, cfg).0
  {
    AnswerIsTraceAnswer(trace, now, cfg);
    ChecksKeepAdmitting(trace, now, later, cfg);
    AnswerIsTraceAnswer(trace + [Check(now)] + Checks(later), t, cfg);
  }

  // ---------------------------------------------------------------- the keys, updated in place

  class Breaker {
    const cfg: Settings
    var state: Option<State>
    var failures: Option<nat>
    var openedAt: Option<int>
    ghost var trace: seq<Event>

    ghost predicate Valid()
      reads this
    {
      View() == Run(trace, cfg)
    }

    function View(): Keys
      reads this
    {
      Keys(state, failures, openedAt)
    }

    constructor (cfg: Settings)
      ensures Valid() && this.cfg == cfg && trace == []
    {
      this.cfg := cfg;
      state, failures, openedAt := None, None, None;
      trace := [];
    }

    /** `can_execute` on the keys. */
    method Decide(now: int) returns (allowed: bool)
      modifies this`state
      ensures (allowed, View()) == CanExecute(old(View()), now, cfg)
    {
      allowed := true;
      if state == Some(Open) {
        if openedAt.None? {
          state := Some(HalfOpen);
        } else if now - openedAt.value >= cfg.cooldown {
          state := Some(HalfOpen);
        } else {
          allowed := false;
        }
      }
    }

    /** The answer is a function of the history. */
    method Ask(now: int) returns (allowed: bool)
      requires Valid()
      modifies this
      ensures Valid() && trace == old(trace) + [Check(now)]
      ensures allowed == Admits(old(trace), now, cfg)
    {
      AnswerIsTraceAnswer(trace, now, cfg);
      allowed := Decide(now);
      trace := trace + [Check(now)];
    }

    method RecordSuccess()
      requires Valid()
      modifies this
      ensures Valid() && trace == old(trace) + [Success]
    {
      state := Some(Closed);
      failures := None;
      openedAt := None;
      trace := trace + [Success];
    }

    /** `record_failure` on the keys. */
    method CountFailure(now: int)
      modifies this`state, this`failures, this`openedAt
      ensures View() == Failed(old(View()), now, cfg)
    {
      if state == Some(HalfOpen) {
        OpenCircuit(now);
      } else {
        failures := Some((if failures.Some? then failures.value else 0) + 1);
        if failures.value >= cfg.threshold {
          OpenCircuit(now);
        }
      }
    }

    method RecordFailure(now: int)
      requires Valid()
      modifies this
      ensures Valid() && trace == old(trace) + [Failure(now)]
    {
      CountFailure(now);
      trace := trace + [Failure(now)];
    }

    method OpenCircuit(now: int)
      modifies this`state, this`openedAt
      ensures View() == Opened(old(View()), now)
    {
      state := Some(Open);
      openedAt := Some(now);
    }
  }
}
