/**
 The fixed-window rate limiter for one bucket (infra/rate_limiter.py): a Redis counter created by the
 first INCR of a window and expiring with it.

 A run is the sequence of the times of its requests, integer seconds that do not run backwards; counter,
 expiry and answers are functions of it.
 */
module RateLimiter {
  import opened Prelude

  /** The Redis key: absent, or a count with the moment it expires. */
  datatype Counter = Absent | Present(count: nat, expires: int)

  datatype Settings = Settings(limit: int, window: int)

  datatype Answer = Answer(allowed: bool, retryAfter: int)

  /** INCR, EXPIRE on the first hit, then compare. An EXPIRE of zero or less deletes the key at once. */
  function Hit(c: Counter, now: int, cfg: Settings): (Answer, Counter) {
    var live := c.Present? && now < c.expires;
    var count := if live then c.count + 1 else 1;
    var expires := if live then c.expires else now + cfg.window;
    var c' := if expires <= now then Absent else Present(count, expires);
    var ttl := expires - now;
    (if count > cfg.limit then Answer(false, if ttl > 0 then ttl else cfg.window) else Answer(true, 0), c')
  }

  predicate Ordered(times: seq<int>) {
    forall i, j :: 0 <= i < j < |times| ==> times[i] <= times[j]
  }

  /** Position of the request that opened the window of request `i`. */
  function WindowStart(times: seq<int>, i: nat, cfg: Settings): (s: nat)
    requires i < |times|
    ensures s <= i
  {
    if i == 0 then 0
    else
      var s := WindowStart(times, i - 1, cfg);
      if times[i] < times[s] + cfg.window then s else i
  }

  /** The answers to a trace of requests, from the trace alone: the first `limit` of every window pass. */
  predicate Passes(times: seq<int>, i: nat, cfg: Settings)
    requires i < |times|
  {
    i - WindowStart(times, i, cfg) < cfg.limit
  }

  /** The counter after a trace of requests. */
  function Run(times: seq<int>, cfg: Settings): Counter {
    if times == [] then Absent else Hit(Run(times[..|times| - 1], cfg), times[|times| - 1], cfg).1
  }

  /** The answer to the last request of a trace. */
  function LastAnswer(times: seq<int>, cfg: Settings): Answer
    requires times != []
  {
    Hit(Run(times[..|times| - 1], cfg), times[|times| - 1], cfg).0
  }

  lemma {:induction false} WindowStartPrefix(times: seq<int>, n: nat, i: nat, cfg: Settings)
    requires i < n <= |times|
    ensures WindowStart(times[..n], i, cfg) == WindowStart(times, i, cfg)
  {
    if i > 0 {
      WindowStartPrefix(times, n, i - 1, cfg);
    }
  }

  /** A window of no length leaves no key behind. */
  lemma {:induction false} NoWindowNoKey(times: seq<int>, cfg: Settings)
    requires cfg.window <= 0
    ensures Run(times, cfg) == Absent
  {
    if times != [] {
      NoWindowNoKey(times[..|times| - 1], cfg);
    }
  }

  lemma OrderedSnoc(times: seq<int>, now: int)
    requires Ordered(times) && (times != [] ==> times[|times| - 1] <= now)
    ensures Ordered(times + [now])
  {
  }

  lemma RunSnoc(times: seq<int>, i: nat, cfg: Settings)
    requires i < |times|
    ensures Run(times[..i + 1], cfg) == Hit(Run(times[..i], cfg), times[i], cfg).1
  {
    assert times[..i + 1][..i] == times[..i];
  }

  lemma {:induction false} CounterTracksRealWindow(times: seq<int>, i: nat, cfg: Settings)
    requires i < |times| && cfg.window > 0
    ensures var s := WindowStart(times, i, cfg);
      Run(times[..i + 1], cfg) == Present(i - s + 1, times[s] + cfg.window)
  {
    RunSnoc(times, i, cfg);
    if i > 0 {
      CounterTracksRealWindow(times, i - 1, cfg);
    }
  }

  /** The key counts the requests of the current window and expires with it. */
  lemma CounterTracksWindow(times: seq<int>, cfg: Settings)
    requires times != []
    ensures var i := |times| - 1;
      var s := WindowStart(times, i, cfg);
      Run(times, cfg) == if cfg.window <= 0 then Absent else Present(i - s + 1, times[s] + cfg.window)
  {
    assert times[..|times| - 1 + 1] == times;
    if cfg.window <= 0 {
      NoWindowNoKey(times, cfg);
    } else {
      CounterTracksRealWindow(times, |times| - 1, cfg);
    }
  }

  /** Exactly the first `limit` requests of each fixed window are admitted. */
  lemma AdmitsFirstOfWindow(times: seq<int>, cfg: Settings)
    requires Ordered(times) && times != []
    ensures LastAnswer(times, cfg).allowed <==> Passes(times, |times| - 1, cfg)
  {
    var i := |times| - 1;
    if i > 0 {
      CounterTracksWindow(times[..i], cfg);
      WindowStartPrefix(times, i, i - 1, cfg);
    }
  }

  /** How many of the requests at positions lo .. hi are admitted. */
  function Admitted(times: seq<int>, lo: nat, hi: nat, cfg: Settings): nat
    requires lo <= hi <= |times|
  {
    if lo == hi then 0 else Admitted(times, lo, hi - 1, cfg) + if Passes(times, hi - 1, cfg) then 1 else 0
  }

  /** The count of a stretch, request by request. */
  lemma AdmittedCounts(times: seq<int>, lo: nat, hi: nat, cfg: Settings)
    requires lo <= hi < |times|
    ensures Admitted(times, lo, lo, cfg) == 0
    ensures Admitted(times, lo, hi + 1, cfg)
            == Admitted(times, lo, hi, cfg) + if Passes(times, hi, cfg) then 1 else 0
  {
  }

  lemma {:induction false} AdmittedSplits(times: seq<int>, lo: nat, mid: nat, hi: nat, cfg: Settings)
    requires lo <= mid <= hi <= |times|
    ensures Admitted(times, lo, hi, cfg) == Admitted(times, lo, mid, cfg) + Admitted(times, mid, hi, cfg)
  {
    if mid < hi {
      AdmittedSplits(times, lo, mid, hi - 1, cfg);
    }
  }

  lemma {:induction false} OneWindowAdmits(times: seq<int>, s: nat, lo: nat, hi: nat, cfg: Settings)
    requires s <= lo <= hi <= |times| && cfg.limit >= 0
    requires forall i: nat | lo <= i < hi :: WindowStart(times, i, cfg) == s
    ensures Admitted(times, lo, hi, cfg) <= Max(0, Min(hi, s + cfg.limit) - lo) <= cfg.limit
  {
    if lo < hi {
      OneWindowAdmits(times, s, lo, hi - 1, cfg);
    }
  }

  /** The end of the stretch from `lo` that lies in one window. */
  lemma {:induction false} WindowEnd(times: seq<int>, lo: nat, hi: nat, cfg: Settings) returns (end: nat)
    requires lo < hi <= |times|
    ensures lo < end <= hi
    ensures forall i: nat | lo <= i < end :: WindowStart(times, i, cfg) == WindowStart(times, lo, cfg)
    ensures end < hi ==> WindowStart(times, end, cfg) == end
                         && times[end] >= times[WindowStart(times, lo, cfg)] + cfg.window
  {
    end := lo + 1;
    while end < hi && WindowStart(times, end, cfg) == WindowStart(times, lo, cfg)
      invariant lo < end <= hi
      invariant forall i: nat | lo <= i < end :: WindowStart(times, i, cfg) == WindowStart(times, lo, cfg)
    {
      end := end + 1;
    }
  }

  /** Any stretch of requests spanning at most one window length has at most twice the limit admitted. */
  lemma AtMostTwiceTheLimit(times: seq<int>, lo: nat, hi: nat, cfg: Settings)
    requires Ordered(times) && lo < hi <= |times| && cfg.window > 0 && cfg.limit >= 0
    requires times[hi - 1] - times[lo] <= cfg.window
    ensures Admitted(times, lo, hi, cfg) <= 2 * cfg.limit
  {
    var mid := WindowEnd(times, lo, hi, cfg);
    OneWindowAdmits(times, WindowStart(times, lo, cfg), lo, mid, cfg);
    AdmittedSplits(times, lo, mid, hi, cfg);
    if mid < hi {
      var end := WindowEnd(times, mid, hi, cfg);
      OneWindowAdmits(times, mid, mid, end, cfg);
      if end < hi {
        // a third window would start more than one window length after request `lo`
        assert false;
      }
    }
  }

  /** A rejected client that waits as told is admitted if nobody else comes first. */
  lemma WaitingHelps(times: seq<int>, next: int, cfg: Settings)
    requires Ordered(times) && times != [] && cfg.limit >= 1
    requires !LastAnswer(times, cfg).allowed
    requires next >= times[|times| - 1] + LastAnswer(times, cfg).retryAfter
    ensures LastAnswer(times + [next], cfg).allowed
  {
  }

  // ---------------------------------------------------------------- the key, updated in place

  class Limiter {
    const cfg: Settings
    var counter: Counter
    ghost var times: seq<int>

    ghost predicate Valid()
      reads this
    {
      Ordered(times) && counter == Run(times, cfg)
    }

    constructor (cfg: Settings)
      ensures Valid() && this.cfg == cfg && times == []
    {
      this.cfg := cfg;
      counter := Absent;
      times := [];
    }

    /** One request on the key. */
    method Register(now: int) returns (allowed: bool, retryAfter: int)
      requires counter.Present? ==> counter.count >= 1
      modifies this`counter
      ensures (Answer(allowed, retryAfter), counter) == Hit(old(counter), now, cfg)
    {
      // INCR
      if counter.Present? && now < counter.expires {
        counter := counter.(count := counter.count + 1);
      } else {
        counter := Present(1, now);
      }
      var count := counter.count;
      // EXPIRE
      if count == 1 {
        counter := if cfg.window <= 0 then Absent else counter.(expires := now + cfg.window);
      }
      if count > cfg.limit {
        var ttl := if counter.Present? then counter.expires - now else -2;
        allowed, retryAfter := false, if ttl > 0 then ttl else cfg.window;
      } else {
        allowed, retryAfter := true, 0;
      }
    }

    method CheckRateLimit(now: int) returns (allowed: bool, retryAfter: int)
      requires Valid() && (times != [] ==> times[|times| - 1] <= now)
      modifies this
      ensures Valid() && times == old(times) + [now]
      ensures allowed == Passes(times, |times| - 1, cfg)
      ensures Answer(allowed, retryAfter) == LastAnswer(times, cfg)
    {
      if times != [] {
        CounterTracksWindow(times, cfg);
      }
      OrderedSnoc(times, now);
      AdmitsFirstOfWindow(times + [now], cfg);
      allowed, retryAfter := Register(now);
      times := times + [now];
    }
  }
}
