/**
 The policy of one business: database column plus a Redis copy with a five-minute life
 (domain/policy_service.py).

 Loads and saves interleave freely; a save's cache delete may fail. A policy is its JSON text; the empty
 text is an unset column. Times are integer seconds.
 */
module PolicyCache {
  import opened Prelude

  const TTL := 300

  /** A cached copy; `readAt` records when its value was read from the database. */
  datatype Entry = Entry(policy: string, readAt: int, expires: int)

  /** One database value together with the moment it was committed. */
  datatype Saved = Saved(at: int, policy: string)

  /** `history` is every committed value, oldest first; `loads` are the loads between database read and cache write. */
  datatype World = World(now: int, history: seq<Saved>, cache: Option<Entry>, loads: map<nat, Saved>)

  datatype Event =
    | Wait(seconds: nat)
    | Commit(policy: string)       // a save commits
    | Delete                       // a save's cache delete, when it works
    | Hit                          // a load answered from the cache
    | Read(load: nat)              // a load that missed, or found Redis down, reads the database
    | Write(load: nat, ok: bool)   // that load writes the cache, if Redis lets it, and returns

  predicate Live(w: World) {
    w.cache.Some? && w.now < w.cache.value.expires
  }

  function Stored(w: World): string
    requires w.history != []
  {
    w.history[|w.history| - 1].policy
  }

  predicate Enabled(w: World, e: Event) {
    match e
    case Hit => Live(w)
    case Read(load) => load !in w.loads && w.history != []
    case Write(load, _) => load in w.loads
    case _ => true
  }

  function Step(w: World, e: Event): World
    requires Enabled(w, e)
  {
    match e
    case Wait(seconds) => w.(now := w.now + seconds)
    case Commit(policy) => w.(history := w.history + [Saved(w.now, policy)])
    case Delete => w.(cache := None)
    case Hit => w
    case Read(load) => w.(loads := w.loads[load := Saved(w.now, Stored(w))])
    case Write(load, ok) =>
      var read := w.loads[load];
      w.(loads := w.loads - {load},
         cache := if ok then Some(Entry(read.policy, read.at, w.now + TTL)) else w.cache)
  }

  /** What a load returns at this event. */
  function Returned(w: World, e: Event): Option<string>
    requires Enabled(w, e)
  {
    match e
    case Hit => Some(w.cache.value.policy)
    case Write(load, _) => Some(w.loads[load].policy)
    case _ => None
  }

  predicate Runs(w: World, es: seq<Event>)
    decreases es
  {
    es == [] || (Enabled(w, es[0]) && Runs(Step(w, es[0]), es[1..]))
  }

  function After(w: World, es: seq<Event>): World
    requires Runs(w, es)
    decreases es
  {
    if es == [] then w else After(Step(w, es[0]), es[1..])
  }

  /** No load takes longer than `gap` from its database read to its cache write. */
  predicate Prompt(w: World, es: seq<Event>, gap: nat)
    requires Runs(w, es)
    decreases es
  {
    es == [] || ((es[0].Write? ==> w.now - w.loads[es[0].load].at <= gap) && Prompt(Step(w, es[0]), es[1..], gap))
  }

  /** The value was the committed one at some moment of second `t`. */
  ghost predicate WasStored(history: seq<Saved>, policy: string, t: int) {
    exists i :: 0 <= i < |history| && history[i].policy == policy && history[i].at <= t
                && (i + 1 < |history| ==> t <= history[i + 1].at)
  }

  ghost predicate Ordered(w: World) {
    forall i :: 0 <= i < |w.history| ==> w.history[i].at <= w.now
  }

  ghost predicate CacheOk(w: World, gap: nat) {
    w.cache.Some? ==>
      var e := w.cache.value;
      WasStored(w.history, e.policy, e.readAt) && e.expires - TTL - gap <= e.readAt <= e.expires - TTL <= w.now
  }

  ghost predicate LoadsOk(w: World) {
    forall l | l in w.loads :: WasStored(w.history, w.loads[l].policy, w.loads[l].at) && w.loads[l].at <= w.now
  }

  ghost predicate Inv(w: World, gap: nat) {
    Ordered(w) && CacheOk(w, gap) && LoadsOk(w)
  }

  lemma LaterSavesKeepThePast(history: seq<Saved>, policy: string, t: int, s: Saved)
    requires WasStored(history, policy, t) && t <= s.at
    ensures WasStored(history + [s], policy, t)
  {
    var i :| 0 <= i < |history| && history[i].policy == policy && history[i].at <= t
             && (i + 1 < |history| ==> t <= history[i + 1].at);
    var more := history + [s];
    assert more[i].policy == policy && more[i].at <= t && (i + 1 < |more| ==> t <= more[i + 1].at);
  }

  lemma StepKeepsInv(w: World, e: Event, gap: nat)
    requires Inv(w, gap) && Enabled(w, e)
    requires e.Write? ==> w.now - w.loads[e.load].at <= gap
    ensures Inv(Step(w, e), gap)
  {
    match e {
      case Commit(policy) =>
        var w' := Step(w, e);
        if w.cache.Some? {
          LaterSavesKeepThePast(w.history, w.cache.value.policy, w.cache.value.readAt, Saved(w.now, policy));
        }
        forall l | l in w'.loads ensures WasStored(w'.history, w'.loads[l].policy, w'.loads[l].at) {
          LaterSavesKeepThePast(w.history, w.loads[l].policy, w.loads[l].at, Saved(w.now, policy));
        }
      case _ =>
    }
  }

  lemma {:induction false} RunKeepsInv(w: World, es: seq<Event>, gap: nat)
    requires Inv(w, gap) && Runs(w, es) && Prompt(w, es, gap)
    ensures Inv(After(w, es), gap)
    decreases es
  {
    if es != [] {
      StepKeepsInv(w, es[0], gap);
      RunKeepsInv(Step(w, es[0]), es[1..], gap);
    }
  }

  /** A cache entry answers for 300 seconds from its write, the last one excluded, unless a delete comes first. */
  lemma EntryLives(w: World, load: nat, seconds: nat)
    requires load in w.loads
    ensures var later := Step(Step(w, Write(load, true)), Wait(seconds));
      && (Enabled(later, Hit) <==> seconds < 300)
      && later.cache.value.policy == w.loads[load].policy
      && !Enabled(Step(later, Delete), Hit)
  {
  }

  function Start(policy: string): World {
    World(0, [Saved(0, policy)], None, map[])
  }

  /**
   Under any interleaving and with any failing delete, whatever a load returns was the committed
   policy at some moment of the last TTL + gap seconds.
   */
  lemma LoadsAreRecent(policy: string, es: seq<Event>, e: Event, gap: nat)
    requires Runs(Start(policy), es) && Prompt(Start(policy), es, gap)
    requires Enabled(After(Start(policy), es), e) && Returned(After(Start(policy), es), e).Some?
    requires var w := After(Start(policy), es); e.Write? ==> w.now - w.loads[e.load].at <= gap
    ensures var w := After(Start(policy), es);
      exists t :: w.now - TTL - gap <= t <= w.now && WasStored(w.history, Returned(w, e).value, t)
  {
    assert Start(policy).history[0].policy == policy;
    RunKeepsInv(Start(policy), es, gap);
    var w := After(Start(policy), es);
    var t := if e.Hit? then w.cache.value.readAt else w.loads[e.load].at;
    assert WasStored(w.history, Returned(w, e).value, t);
  }

  /** The bound is about time, not order: a load that read before a save can hide the save from later loads. */
  lemma RacingLoadServesOldPolicy(before: string, after: string)
    requires before != after
    ensures var es := [Read(0), Commit(after), Delete, Write(0, true)];
      && Runs(Start(before), es)
      && After(Start(before), es).history != []
      && Stored(After(Start(before), es)) == after
      && Enabled(After(Start(before), es), Hit)
      && Returned(After(Start(before), es), Hit) == Some(before)
  {
    var es := [Read(0), Commit(after), Delete, Write(0, true)];
    var w1 := Step(Start(before), es[0]);
    var w2 := Step(w1, es[1]);
    var w3 := Step(w2, es[2]);
    var w4 := Step(w3, es[3]);
    assert es[1..][1..][1..] == [es[3]] && es[1..][1..] == [es[2], es[3]] && es[1..] == [es[1], es[2], es[3]];
    assert Runs(w4, []) && After(w4, []) == w4;
    assert Runs(w3, [es[3]]) && After(w3, [es[3]]) == w4;
    assert Runs(w2, [es[2], es[3]]) && After(w2, [es[2], es[3]]) == w4;
    assert Runs(w1, [es[1], es[2], es[3]]) && After(w1, [es[1], es[2], es[3]]) == w4;
  }

  // ---------------------------------------------------------------- one call at a time

  /** Whole calls, none overlapping another; `redisUp` says whether the cache answers this load. */
  datatype Call = Load(redisUp: bool) | Save(policy: string) | Pause(seconds: nat)

  /** The events of one call in a world where no load is under way. */
  function EventsOf(w: World, c: Call): seq<Event> {
    match c
    case Load(redisUp) => if redisUp && Live(w) then [Hit] else [Read(0), Write(0, redisUp)]
    case Save(policy) => [Commit(policy), Delete]
    case Pause(seconds) => [Wait(seconds)]
  }

  ghost predicate Quiet(w: World) {
    w.loads == map[] && w.history != [] && (w.cache.Some? ==> w.cache.value.policy == Stored(w))
  }

  /** What a load of its own returns: the value of its last event. */
  ghost function Loaded(w: World, c: Call): Option<string>
    requires Quiet(w) && c.Load?
  {
    if c.redisUp && Live(w) then Returned(w, Hit) else Returned(Step(w, Read(0)), Write(0, c.redisUp))
  }

  /** One call at a time with working deletes: a load returns the committed policy, and every call keeps it so. */
  lemma CallIsExact(w: World, c: Call)
    requires Quiet(w)
    ensures Runs(w, EventsOf(w, c)) && Quiet(After(w, EventsOf(w, c)))
    ensures Stored(After(w, EventsOf(w, c))) == if c.Save? then c.policy else Stored(w)
    ensures c.Load? ==> Loaded(w, c) == Some(Stored(w))
  {
    match c {
      case Load(redisUp) =>
        if redisUp && Live(w) {
          RunOne(w, Hit);
        } else {
          RunOne(Step(w, Read(0)), Write(0, redisUp));
          RunTwo(w, Read(0), Write(0, redisUp));
          assert Step(w, Read(0)).loads == map[0 := Saved(w.now, Stored(w))];
          assert Step(Step(w, Read(0)), Write(0, redisUp)).loads == map[];
        }
      case Save(policy) => RunTwo(w, Commit(policy), Delete);
      case Pause(seconds) => RunOne(w, Wait(seconds));
    }
  }

  /** The world after whole calls, one after the other. */
  ghost function AfterCalls(w: World, cs: seq<Call>): (r: World)
    requires Quiet(w)
    ensures Quiet(r) && Stored(r) == LastSaved(Stored(w), cs)
  {
    if cs == [] then w
    else
      var before, c := AfterCalls(w, cs[..|cs| - 1]), cs[|cs| - 1];
      CallIsExact(before, c);
      After(before, EventsOf(before, c))
  }

  /** The policy saved last, or the first one. */
  function LastSaved(policy: string, cs: seq<Call>): string {
    if cs == [] then policy
    else if cs[|cs| - 1].Save? then cs[|cs| - 1].policy
    else LastSaved(policy, cs[..|cs| - 1])
  }

  /** In every sequential run with working deletes, every load returns exactly the policy saved last. */
  lemma SequentialLoadsAreExact(policy: string, cs: seq<Call>, i: nat)
    requires i < |cs| && cs[i].Load?
    ensures Quiet(Start(policy))
    ensures Loaded(AfterCalls(Start(policy), cs[..i]), cs[i]) == Some(LastSaved(policy, cs[..i]))
  {
    CallIsExact(AfterCalls(Start(policy), cs[..i]), cs[i]);
  }

  lemma RunOne(w: World, e: Event)
    requires Enabled(w, e)
    ensures Runs(w, [e]) && After(w, [e]) == Step(w, e)
  {
  }

  lemma RunTwo(w: World, a: Event, b: Event)
    requires Enabled(w, a) && Enabled(Step(w, a), b)
    ensures Runs(w, [a, b]) && After(w, [a, b]) == Step(Step(w, a), b)
  {
    RunOne(Step(w, a), b);
    assert [a, b][1..] == [b];
  }

  /** The service used by one caller at a time, updated in place. */
  class PolicyService {
    var stored: string
    var cache: Option<Entry>
    const default: string

    constructor (default: string)
      ensures Fresh() && stored == "" && this.default == default
    {
      stored, cache, this.default := "", None, default;
    }

    /** The policy a load must return. */
    function Current(): string
      reads this
    {
      if stored == "" then default else stored
    }

    /** Whatever is cached is the current policy. */
    predicate Fresh()
      reads this
    {
      cache.Some? ==> cache.value.policy == Current()
    }

    /** `getOk` and `setOk` say whether Redis answers. A fresh cache makes the load exact, and stays fresh. */
    method LoadPolicy(now: int, getOk: bool, setOk: bool) returns (policy: string)
      modifies this`cache
      ensures old(Fresh()) ==> Fresh() && policy == Current()
      ensures var hit := getOk && old(cache).Some? && now < old(cache).value.expires;
        var inForce := if stored == "" then default else stored;
        && policy == (if hit then old(cache).value.policy else inForce)
        && cache == if !hit && setOk then Some(Entry(inForce, now, now + 300)) else old(cache)
    {
      if getOk && cache.Some? && now < cache.value.expires {
        return cache.value.policy;
      }
      if stored != "" {
        policy := stored;
      } else {
        policy := default;
      }
      if setOk {
        cache := Some(Entry(policy, now, now + TTL));
      }
    }

    /** Raises, changing nothing, for an unknown business. A working delete leaves the cache fresh. */
    method SavePolicy(policy: string, businessExists: bool, deleteOk: bool) returns (r: Result<bool>)
      requires policy != ""
      modifies this
      ensures !businessExists ==> r.Err? && stored == old(stored) && cache == old(cache)
      ensures businessExists ==> r.Ok? && stored == policy && cache == if deleteOk then None else old(cache)
      ensures deleteOk && old(Fresh()) ==> Fresh()
    {
      if !businessExists {
        return Err("Business not found");
      }
      stored := policy;
      if deleteOk {
        cache := None;
      }
      return Ok(true);
    }
  }
}
