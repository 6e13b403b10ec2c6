/** internal/schedule/schedule.go: the timer settings, their file, and the channel that announces a change. */
module Schedule {
  import opened Options
  import opened Interval
  import opened Durations
  import Int64

  /** Hours of the day for each hourly job, and the credit-refresh interval in nanoseconds. */
  datatype Values = Values(checkin: seq<int>, keepalive: seq<int>, model: seq<int>, credit: int)

  datatype SavedFile = SavedFile(checkin: seq<int>, keepalive: seq<int>, interval: string, model: seq<int>)

  function SavedOf(v: Values): SavedFile {
    SavedFile(v.checkin, v.keepalive, FormatInterval(v.credit), v.model)
  }

  /** The settings a program starts with: the file's, unless it is missing or its interval is not accepted. */
  function Loaded(file: Option<SavedFile>, defaults: Values): Values {
    match file
    case None => defaults
    case Some(f) =>
      match ParseInterval(f.interval)
      case None => defaults
      case Some(credit) => Values(f.checkin, f.keepalive, f.model, credit)
  }

  /** The settings after a reset: the defaults, but no hours for the model refresh. */
  function AfterReset(defaults: Values): Values {
    defaults.(model := [])
  }

  predicate ValidHour(h: int) { 0 <= h <= 23 }

  predicate ValidHours(hours: seq<int>) {
    forall h :: h in hours ==> ValidHour(h)
  }

  method ValidateHours(hours: seq<int>) returns (ok: bool)
    ensures ok <==> ValidHours(hours)
  {
    for i := 0 to |hours|
      invariant ValidHours(hours[..i])
    {
      assert hours[i] in hours;
      if hours[i] < 0 || hours[i] > 23 {
        return false;
      }
      assert hours[..i + 1] == hours[..i] + [hours[i]];
    }
    assert hours[..|hours|] == hours;
    ok := true;
  }

  // ---- the change channel ------------------------------------------------

  class Channel {
    var closed: bool

    constructor ()
      ensures !closed
    {
      closed := false;
    }

    /** Closing a closed channel is a panic in Go, so no caller may do it. */
    method Close()
      requires !closed
      modifies this
      ensures closed
    {
      closed := true;
    }
  }

  class Settings {
    const persistent: bool
    const defaults: Values
    var current: Values
    var file: Option<SavedFile>
    var ch: Channel

    /** The channel handed out now is open. */
    ghost predicate Valid()
      reads this, ch
    {
      !ch.closed && (persistent || file.None?)
    }

    constructor Load(persistent: bool, file: Option<SavedFile>, defaults: Values)
      ensures Valid() && fresh(ch)
      ensures this.persistent == persistent && this.defaults == defaults
      ensures this.file == if persistent then file else None
      ensures current == Loaded(this.file, defaults)
      ensures !persistent || file.None? || ParseInterval(file.value.interval).None? ==> current == defaults
    {
      this.persistent, this.defaults := persistent, defaults;
      var f := if persistent then file else None;
      this.file := f;
      current := Loaded(f, defaults);
      ch := new Channel();
    }

    method Snapshot() returns (v: Values, changed: Channel)
      ensures v == current && changed == ch
    {
      return current, ch;
    }

    /** Everybody holding the old channel is told; the new one is open. */
    method Set(v: Values)
      requires Valid()
      modifies this`current, this`ch, this`file, ch
      ensures Valid() && fresh(ch) && old(ch).closed
      ensures current == v
      ensures file == if persistent then Some(SavedOf(v)) else None
    {
      hide SavedOf;
      current := v;
      ch.Close();
      ch := new Channel();
      if persistent {
        file := Some(SavedOf(current));
      }
    }

    /** `removable` is whether the file can be removed; if not, nothing changes. */
    method Reset(removable: bool) returns (ok: bool)
      requires Valid()
      modifies this`current, this`ch, this`file, ch
      ensures Valid() && ok == (removable || !persistent)
      ensures ok ==> current == AfterReset(defaults) && file == None && fresh(ch) && old(ch).closed
      ensures !ok ==> current == old(current) && file == old(file) && ch == old(ch)
    {
      if persistent {
        if !removable {
          return false;
        }
        file := None;
      }
      current := Values(defaults.checkin, defaults.keepalive, [], defaults.credit);
      ch.Close();
      ch := new Channel();
      ok := true;
    }
  }

  // ---- restarts -----------------------------------------------------------

  /** Saved settings come back after a restart, whatever the defaults, exactly when the interval is off or at least
      a minute long. */
  lemma SetSurvivesRestartExactly(v: Values)
    requires Int64.Fits(v.credit)
    ensures (forall d :: Loaded(Some(SavedOf(v)), d) == v) <==> v.credit == 0 || v.credit >= MINUTE
  {
    hide ParseInterval, FormatInterval;
    RoundTripExactly(v.credit);
    var other := v.(credit := v.credit + 1);
    assert ParseInterval(FormatInterval(v.credit)) == None ==> Loaded(Some(SavedOf(v)), other) == other;
    assert ParseInterval(FormatInterval(v.credit)) != Some(v.credit) ==> Loaded(Some(SavedOf(v)), other) != v;
  }

  /** A configured model-refresh hour is gone after a reset, and back after the next restart. */
  lemma ResetForgetsModelHours()
    ensures var defaults := Values([9, 21], [22], [3], 0);
            AfterReset(defaults).model == [] && Loaded(None, defaults).model == [3]
  {
  }

  /** A reset matches what a restart without a file would give exactly when no model-refresh hours are configured. */
  lemma ResetMatchesRestartExactly(defaults: Values)
    ensures AfterReset(defaults) == Loaded(None, defaults) <==> defaults.model == []
  {
  }
}
