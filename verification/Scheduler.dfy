/** internal/scheduler/scheduler.go: one timer for several hourly jobs and a periodic one.

    Times are nanoseconds; `offset` is the fixed distance of local time from UTC. */
module Scheduler {
  import opened Options
  import opened Durations
  import opened Schedule

  // ---- the next hour ------------------------------------------------------

  /** The start of the local day. */
  function DayStart(now: int, offset: int): int {
    now - (now + offset) % DAY
  }

  function LocalHour(t: int, offset: int): int {
    (t + offset) % DAY / HOUR
  }

  predicate OnTheHour(t: int, offset: int) {
    (t + offset) % HOUR == 0
  }

  /** t is a firing instant of the hours. */
  predicate Due(t: int, hours: seq<int>, offset: int) {
    OnTheHour(t, offset) && LocalHour(t, offset) in hours
  }

  function FireAt(now: int, h: int, offset: int): int {
    var t := DayStart(now, offset) + h * HOUR;
    if t > now then t else t + DAY
  }

  function Earlier(a: Option<int>, b: Option<int>): Option<int> {
    match (a, b)
    case (None, _) => b
    case (_, None) => a
    case (Some(x), Some(y)) => if x < y then a else b
  }

  /** The next firing instant after now; None when there are no hours. */
  function NextFire(now: int, hours: seq<int>, offset: int): Option<int>
  {
    if hours == [] then None
    else Earlier(NextFire(now, hours[..|hours| - 1], offset), Some(FireAt(now, hours[|hours| - 1], offset)))
  }

  method FindNextFire(now: int, hours: seq<int>, offset: int) returns (earliest: Option<int>)
    ensures earliest == NextFire(now, hours, offset)
  {
    earliest := None;
    for i := 0 to |hours|
      invariant earliest == NextFire(now, hours[..i], offset)
    {
      assert hours[..i + 1][..i] == hours[..i];
      var t := DayStart(now, offset) + hours[i] * HOUR;
      if t <= now {
        t := t + DAY;
      }
      if earliest.None? || t < earliest.value {
        earliest := Some(t);
      }
    }
    assert hours[..|hours|] == hours;
  }

  lemma HourOfDay(x: int, h: int)
    requires ValidHour(h)
    ensures x % HOUR == 0 && x % DAY / HOUR == h <==> x % DAY == h * HOUR
  {
    var r := x % DAY;
    assert x == x / DAY * DAY + r;
    assert x % HOUR == r % HOUR;
  }

  lemma DaysApart(x: int, y: int, c: int)
    requires 0 <= c < DAY
    ensures x % DAY == c <==> (x - (y - y % DAY) - c) % DAY == 0
  {
    var z := x - (y - y % DAY) - c;
    assert z == (x / DAY - y / DAY) * DAY + (x % DAY - c);
  }

  /** A firing instant of hour h is a whole number of days away from the one in the day of `now`. */
  lemma DueForm(t: int, h: int, now: int, offset: int)
    requires ValidHour(h)
    ensures Due(t, [h], offset) <==> (t - (DayStart(now, offset) + h * HOUR)) % DAY == 0
  {
    HourOfDay(t + offset, h);
    DaysApart(t + offset, now + offset, h * HOUR);
  }

  /** For one hour: the instant found is after now, within a day, and none is due in between. */
  lemma FireAtIsLeast(now: int, h: int, offset: int)
    requires ValidHour(h)
    ensures var f := FireAt(now, h, offset);
            && now < f <= now + DAY && Due(f, [h], offset)
            && forall t :: now < t < f ==> !Due(t, [h], offset)
  {
    var f, base := FireAt(now, h, offset), DayStart(now, offset) + h * HOUR;
    DueForm(f, h, now, offset);
    forall t | now < t < f
      ensures !Due(t, [h], offset)
    {
      DueForm(t, h, now, offset);
    }
  }

  /** The instant found for an hour strikes that hour exactly when the hour is one ValidateHours accepts; for any
      other number the timer rings at an instant at which no list names the hour. */
  lemma HourServedExactly(now: int, h: int, offset: int)
    ensures Due(FireAt(now, h, offset), [h], offset) <==> ValidHour(h)
  {
    if ValidHour(h) {
      FireAtIsLeast(now, h, offset);
    } else {
      assert 0 <= LocalHour(FireAt(now, h, offset), offset) <= 23;
    }
  }

  /** The least instant after now at which a listed hour strikes, at most a day away; None without hours. */
  ghost predicate IsLeastDue(f: Option<int>, now: int, hours: seq<int>, offset: int) {
    match f
    case None => hours == []
    case Some(t) =>
      && now < t <= now + DAY && Due(t, hours, offset)
      && forall t' :: now < t' < t ==> !Due(t', hours, offset)
  }

  lemma DueMore(hours: seq<int>, h: int, offset: int)
    ensures forall t :: Due(t, hours + [h], offset) <==> Due(t, hours, offset) || Due(t, [h], offset)
    ensures forall t :: !Due(t, [], offset)
  {
    hide OnTheHour, LocalHour;
  }

  lemma LeastDueMore(f: Option<int>, now: int, hours: seq<int>, h: int, offset: int)
    requires IsLeastDue(f, now, hours, offset) && IsLeastDue(Some(FireAt(now, h, offset)), now, [h], offset)
    ensures IsLeastDue(Earlier(f, Some(FireAt(now, h, offset))), now, hours + [h], offset)
  {
    DueMore(hours, h, offset);
    hide Due, FireAt;
  }

  /** NextFire is the least instant after now at which some listed hour strikes, and it is at most a day away. */
  lemma {:induction false} NextFireIsLeast(now: int, hours: seq<int>, offset: int)
    requires ValidHours(hours)
    ensures IsLeastDue(NextFire(now, hours, offset), now, hours, offset)
  {
    if hours != [] {
      var init, h := hours[..|hours| - 1], hours[|hours| - 1];
      assert init + [h] == hours;
      NextFireIsLeast(now, init, offset);
      FireAtIsLeast(now, h, offset);
      hide Due, FireAt;
      LeastDueMore(NextFire(now, init, offset), now, init, h, offset);
    }
  }

  /** The instant found for hour h is always in the future exactly when h is not negative. */
  lemma FireAtIsLaterExactly(h: int, offset: int)
    ensures (forall now :: now < FireAt(now, h, offset)) <==> h >= 0
  {
    if h >= 0 {
      forall now
        ensures now < FireAt(now, h, offset)
      {
        assert h * HOUR >= 0;
      }
    } else {
      EndOfDay(h, offset);
    }
  }

  /** At the end of the day, a negative hour is over. */
  lemma EndOfDay(h: int, offset: int)
    requires h < 0
    ensures FireAt(DAY - 1 - offset, h, offset) < DAY - 1 - offset
  {
    assert h * HOUR + HOUR <= 0;
  }

  lemma {:induction false} NextFireIsLater(now: int, hours: seq<int>, offset: int)
    requires forall h :: h in hours ==> h >= 0
    ensures NextFire(now, hours, offset).Some? ==> now < NextFire(now, hours, offset).value
  {
    if hours != [] {
      var n := |hours| - 1;
      assert forall h :: h in hours[..n] ==> h in hours;
      assert hours[n] in hours;
      NextFireIsLater(now, hours[..n], offset);
      FireAtIsLaterExactly(hours[n], offset);
    }
  }

  lemma {:induction false} NextFireAtMost(now: int, hours: seq<int>, h: int, offset: int)
    requires h in hours
    ensures NextFire(now, hours, offset).Some? && NextFire(now, hours, offset).value <= FireAt(now, h, offset)
  {
    var n := |hours| - 1;
    if h in hours[..n] {
      NextFireAtMost(now, hours[..n], h, offset);
    } else {
      assert h == hours[n];
    }
  }

  /** The timer is always armed for the future exactly when no hour is negative; otherwise it may ring at once. */
  lemma NextFireIsLaterExactly(hours: seq<int>, offset: int)
    ensures (forall now :: NextFire(now, hours, offset).Some? ==> now < NextFire(now, hours, offset).value)
            <==> forall h :: h in hours ==> h >= 0
  {
    if h :| h in hours && h < 0 {
      EndOfDay(h, offset);
      NextFireAtMost(DAY - 1 - offset, hours, h, offset);
    } else {
      forall now
        ensures NextFire(now, hours, offset).Some? ==> now < NextFire(now, hours, offset).value
      {
        NextFireIsLater(now, hours, offset);
      }
    }
  }

  /** One timer over all hours fires when the first of the separate timers would. */
  lemma {:induction false} MergedTimerIsEarliest(now: int, a: seq<int>, b: seq<int>, offset: int)
    ensures NextFire(now, a + b, offset) == Earlier(NextFire(now, a, offset), NextFire(now, b, offset))
  {
    if b == [] {
      assert a + b == a;
    } else {
      assert (a + b)[..|a + b| - 1] == a + b[..|b| - 1];
      MergedTimerIsEarliest(now, a, b[..|b| - 1], offset);
    }
  }

  /** When the merged timer strikes, a job's hours contain that hour exactly if the job's own timer strikes then. */
  lemma JobFiresOnItsOwnTimer(now: int, part: seq<int>, all: seq<int>, offset: int)
    requires ValidHours(all) && forall h :: h in part ==> h in all
    requires NextFire(now, all, offset).Some?
    ensures var t := NextFire(now, all, offset).value;
            LocalHour(t, offset) in part <==> NextFire(now, part, offset) == Some(t)
  {
    NextFireIsLeast(now, all, offset);
    NextFireIsLeast(now, part, offset);
    hide NextFire, LocalHour, OnTheHour;
    var t, own := NextFire(now, all, offset).value, NextFire(now, part, offset);
    assert Due(t, part, offset) <==> LocalHour(t, offset) in part;
    if own.Some? {
      assert Due(own.value, all, offset);
      assert t <= own.value;
      assert t < own.value ==> !Due(t, part, offset);
    }
  }

  // ---- the jobs of one hour -------------------------------------------------

  datatype Job = Checkin | Keepalive | ModelRefresh

  function HoursOf(v: Values, j: Job): seq<int> {
    match j case Checkin => v.checkin case Keepalive => v.keepalive case ModelRefresh => v.model
  }

  function AllHours(v: Values): seq<int> {
    v.checkin + v.keepalive + v.model
  }

  function JobsAt(v: Values, h: int): seq<Job> {
    (if h in v.checkin then [Checkin] else []) + (if h in v.keepalive then [Keepalive] else [])
    + (if h in v.model then [ModelRefresh] else [])
  }

  /** The jobs dispatched are those whose own timers strike, and there is at least one. */
  lemma DispatchMatchesOwnTimers(now: int, v: Values, offset: int, j: Job)
    requires ValidHours(AllHours(v)) && NextFire(now, AllHours(v), offset).Some?
    ensures var t := NextFire(now, AllHours(v), offset).value;
            && (j in JobsAt(v, LocalHour(t, offset)) <==> NextFire(now, HoursOf(v, j), offset) == Some(t))
            && JobsAt(v, LocalHour(t, offset)) != []
  {
    NextFireIsLeast(now, AllHours(v), offset);
    JobFiresOnItsOwnTimer(now, HoursOf(v, j), AllHours(v), offset);
    hide NextFire, ValidHours, LocalHour;
    var h := LocalHour(NextFire(now, AllHours(v), offset).value, offset);
    assert h in HoursOf(v, j) <==> j in JobsAt(v, h);
  }
}
