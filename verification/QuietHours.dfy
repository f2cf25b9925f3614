/**
 Quiet hours (domain/quiet_hours.py, domain/policy_service.py is_quiet_hours).

 Times are integer seconds UTC; `offset` is the fixed distance of local time from UTC. A window is
 circular: it may cross midnight. Both quiet checks of the source are modelled, since they differ on a
 window whose ends coincide.
 */
module QuietHours {

  const HOUR := 3600
  const DAY := 86400

  /** Quiet hours of a policy; both hours are in 0..23. */
  datatype Window = Window(start: nat, end: nat)

  predicate Valid(w: Window) {
    w.start < 24 && w.end < 24
  }

  function LocalHour(now: int, offset: int): (h: nat)
    ensures h < 24
  {
    (now + offset) / HOUR % 24
  }

  /** `QuietHoursService.is_within_quiet_hours`. */
  predicate IsQuiet(w: Window, now: int, offset: int) {
    var hour := LocalHour(now, offset);
    if w.start == w.end then false
    else if w.start > w.end then hour >= w.start || hour < w.end
    else w.start <= hour < w.end
  }

  /** `PolicyService.is_quiet_hours`, given the hour. */
  predicate PolicyIsQuiet(w: Window, hour: nat) {
    if w.start < w.end then w.start <= hour < w.end else hour >= w.start || hour < w.end
  }

  /** `next_allowed_send_time`: today's end hour, or tomorrow's if that has passed. */
  function NextAllowed(w: Window, now: int, offset: int): int {
    if !IsQuiet(w, now, offset) then now
    else
      var local := now + offset;
      var localEnd := local - local % DAY + HOUR * w.end;
      (if localEnd <= local then localEnd + DAY else localEnd) - offset
  }

  /** A time `dt` later in the same day, or past midnight. */
  lemma Later(local: int, dt: int)
    requires 0 <= dt <= DAY
    ensures var p := local % DAY + dt; (local + dt) % DAY == if p < DAY then p else if p < 2 * DAY then p - DAY else 0
  {
    var d, r := local / DAY, local % DAY;
    assert local == DAY * d + r;
    assert local + dt == DAY * (d + 1) + (r + dt - DAY);
  }

  /** The hour of a local time is decided by its position in the day. */
  lemma HourOfDay(local: int)
    ensures var p, h := local % DAY, local / HOUR % 24; HOUR * h <= p < HOUR * h + HOUR
  {
    var d, r := local / DAY, local % DAY;
    var h := r / HOUR;
    assert local == DAY * d + r && HOUR * h <= r < HOUR * h + HOUR && 0 <= h < 24;
    assert local / HOUR == 24 * d + h;
    assert (24 * d + h) % 24 == h;
  }

  /** By the position in the local day. */
  predicate QuietAt(w: Window, p: int) {
    if w.start == w.end then false
    else if w.start > w.end then p >= HOUR * w.start || p < HOUR * w.end
    else HOUR * w.start <= p < HOUR * w.end
  }

  lemma QuietByPosition(w: Window, now: int, offset: int)
    ensures IsQuiet(w, now, offset) <==> QuietAt(w, (now + offset) % DAY)
  {
    HourOfDay(now + offset);
  }

  /** The window on the clock: quiet from the start hour to the end hour of the local day, past midnight if need be. */
  lemma QuietOnTheClock(w: Window, now: int, offset: int)
    requires Valid(w)
    ensures var clock := (now + offset) % 86400;
      && (w.start < w.end ==> (IsQuiet(w, now, offset) <==> 3600 * w.start <= clock < 3600 * w.end))
      && (w.start > w.end ==> (IsQuiet(w, now, offset) <==> clock < 3600 * w.end || 3600 * w.start <= clock))
      && (w.start == w.end ==> !IsQuiet(w, now, offset))
  {
    QuietByPosition(w, now, offset);
  }

  /** The returned time is the first allowed one from now on, at most a day away. */
  lemma NextAllowedIsLeast(w: Window, now: int, offset: int)
    requires Valid(w)
    ensures var next := NextAllowed(w, now, offset);
      && now <= next <= now + DAY
      && !IsQuiet(w, next, offset)
      && forall t :: now <= t < next ==> IsQuiet(w, t, offset)
  {
    var next, p := NextAllowed(w, now, offset), (now + offset) % DAY;
    QuietByPosition(w, now, offset);
    QuietByPosition(w, next, offset);
    Later(now + offset, next - now);
    forall t | now <= t < next ensures IsQuiet(w, t, offset) {
      QuietByPosition(w, t, offset);
      Later(now + offset, t - now);
    }
  }

  lemma NextAllowedIsFixedPoint(w: Window, now: int, offset: int)
    requires Valid(w)
    ensures NextAllowed(w, NextAllowed(w, now, offset), offset) == NextAllowed(w, now, offset)
  {
    NextAllowedIsLeast(w, now, offset);
  }

  /** The two checks agree at every instant exactly when the window's ends differ; otherwise they always disagree. */
  lemma ChecksAgreeIffEndsDiffer(w: Window)
    requires Valid(w)
    ensures (forall now, offset :: IsQuiet(w, now, offset) == PolicyIsQuiet(w, LocalHour(now, offset)))
            <==> w.start != w.end
    ensures w.start == w.end ==>
              forall now, offset :: !IsQuiet(w, now, offset) && PolicyIsQuiet(w, LocalHour(now, offset))
  {
    if w.start == w.end {
      assert !IsQuiet(w, 0, 0) && PolicyIsQuiet(w, LocalHour(0, 0));
    }
  }

  // ---------------------------------------------------------------- deferring a message

  class ScheduledMessage {
    var scheduledAt: int

    constructor (at: int)
      ensures scheduledAt == at
    {
      scheduledAt := at;
    }

    /** Deferred messages are due at the first allowed moment; others keep their time. */
    method DeferIfQuiet(w: Window, now: int, offset: int) returns (deferred: bool)
      requires Valid(w)
      modifies this
      ensures deferred == IsQuiet(w, now, offset)
      ensures !deferred ==> scheduledAt == old(scheduledAt)
      ensures deferred ==> now < scheduledAt <= now + DAY && !IsQuiet(w, scheduledAt, offset)
                           && forall t :: now <= t < scheduledAt ==> IsQuiet(w, t, offset)
    {
      if !IsQuiet(w, now, offset) {
        return false;
      }
      NextAllowedIsLeast(w, now, offset);
      scheduledAt := NextAllowed(w, now, offset);
      return true;
    }
  }
}
