/** internal/scheduler/scheduler.go, Run: the event loop of one scheduler. */
module TimerLoop {
  import opened Options
  import opened Durations
  import opened Schedule
  import opened Scheduler

  /** An hourly instant served: when the timer was armed and when it rang, and the jobs run. */
  datatype SlotRun = SlotRun(armedAt: int, due: int, rangAt: int, local: Values, jobs: seq<Job>)

  /** A periodic credit refresh: when the timer rang for it, when it was over, and the interval then in force. */
  datatype RefreshRun = RefreshRun(rangAt: int, over: int, every: int)

  datatype Update = SetTo(v: Values) | ResetTo(removable: bool)

  /** What the select statement sees; the run ends when the turns do. */
  datatype Wake = TimerRings | ChannelClosed

  /** One pass of the loop: what others do to the settings meanwhile, and what wakes it. */
  datatype Turn = Turn(updates: seq<Update>, wake: Wake)

  /** What stays fixed; `clock` gives the time of each of the loop's clock readings. */
  datatype World = World(defaults: Values, persistent: bool, clock: nat -> int, offset: int)

  /** The settings, and what the loop knows of them and has done; `told` means that its channel is closed. */
  datatype State = State(current: Values, told: bool, local: Values, creditNext: Option<int>,
                         slots: seq<SlotRun>, refreshes: seq<RefreshRun>)

  // ---- what the loop does, on values --------------------------------------------

  function NextInterval(now: int, every: int): Option<int> {
    if every <= 0 then None else Some(now + every)
  }

  /** Settings in force, and whether they were announced as changed. */
  datatype Posted = Posted(current: Values, changed: bool)

  function AfterUpdate(w: World, p: Posted, u: Update): Posted {
    match u
    case SetTo(v) => Posted(v, true)
    case ResetTo(removable) => if removable || !w.persistent then Posted(AfterReset(w.defaults), true) else p
  }

  function AfterUpdates(w: World, current: Values, updates: seq<Update>): Posted
  {
    if updates == [] then Posted(current, false)
    else AfterUpdate(w, AfterUpdates(w, current, updates[..|updates| - 1]), updates[|updates| - 1])
  }

  function Notified(s: State, p: Posted): State {
    s.(current := p.current, told := s.told || p.changed)
  }

  /** The hour is served if it has come, and the credits are refreshed if that is due. */
  function Rung(s: State, armedAt: int, now: int, later: int, offset: int): State {
    var hourNext := NextFire(armedAt, AllHours(s.local), offset);
    var slots :=
      if hourNext.Some? && hourNext.value <= now then
        [SlotRun(armedAt, hourNext.value, now, s.local, JobsAt(s.local, LocalHour(hourNext.value, offset)))]
      else [];
    if s.creditNext.Some? && s.creditNext.value <= now then
      s.(slots := s.slots + slots, refreshes := s.refreshes + [RefreshRun(now, later, s.local.credit)],
         creditNext := NextInterval(later, s.local.credit))
    else s.(slots := s.slots + slots)
  }

  function CaughtUp(s: State, now: int): State {
    s.(told := false, local := s.current, creditNext := NextInterval(now, s.current.credit))
  }

  function AfterTurn(w: World, s: State, turn: Turn, k: nat): State {
    var t := Notified(s, AfterUpdates(w, s.current, turn.updates));
    match turn.wake
    case TimerRings => Rung(t, w.clock(k + 1), w.clock(k + 2), w.clock(k + 3), w.offset)
    case ChannelClosed => if t.told then CaughtUp(t, w.clock(k + 3)) else t
  }

  function Started(current: Values, now: int): State {
    State(current, false, current, NextInterval(now, current.credit), [], [])
  }

  /** The run of the loop over the turns; each takes three clock readings. */
  function Play(w: World, current: Values, turns: seq<Turn>): State
  {
    if turns == [] then Started(current, w.clock(0))
    else
      var n := |turns| - 1;
      AfterTurn(w, Play(w, current, turns[..n]), turns[n], 3 * n)
  }

  // ---- the loop ------------------------------------------------------------------

  /** Others change the settings; whoever holds the channel of an overtaken state finds it closed. */
  method Others(settings: Settings, updates: seq<Update>, ghost w: World)
    requires settings.Valid() && w.defaults == settings.defaults && w.persistent == settings.persistent
    modifies settings`current, settings`ch, settings`file, settings.ch
    ensures settings.Valid()
    ensures var p := AfterUpdates(w, old(settings.current), updates);
            && settings.current == p.current
            && (p.changed ==> fresh(settings.ch) && old(settings.ch).closed)
            && (!p.changed ==> settings.ch == old(settings.ch))
  {
    hide SavedOf, AfterReset;
    for i := 0 to |updates|
      invariant settings.Valid()
      invariant var p := AfterUpdates(w, old(settings.current), updates[..i]);
                && settings.current == p.current
                && (p.changed ==> fresh(settings.ch) && old(settings.ch).closed)
                && (!p.changed ==> settings.ch == old(settings.ch))
    {
      assert updates[..i + 1][..i] == updates[..i];
      match updates[i] {
        case SetTo(v) =>
          settings.Set(v);
        case ResetTo(removable) =>
          var ok := settings.Reset(removable);
      }
    }
    assert updates[..|updates|] == updates;
  }

  class Loop {
    var local: Values
    var ch: Channel
    var creditNext: Option<int>
    var slots: seq<SlotRun>
    var refreshes: seq<RefreshRun>

    ghost function View(settings: Settings): State
      reads this, ch, settings`current
    {
      State(settings.current, ch.closed, local, creditNext, slots, refreshes)
    }

    constructor (settings: Settings, now: int)
      requires settings.Valid()
      ensures View(settings) == Started(settings.current, now) && ch == settings.ch
    {
      local, ch := settings.current, settings.ch;
      creditNext := NextInterval(now, settings.current.credit);
      slots, refreshes := [], [];
    }

    /** The timer rings: serve the hour if it has come, refresh the credits if that is due. */
    method OnTimer(settings: Settings, hourNext: Option<int>, armedAt: int, now: int, later: int, offset: int)
      requires hourNext == NextFire(armedAt, AllHours(local), offset)
      modifies this`slots, this`refreshes, this`creditNext
      ensures View(settings) == Rung(old(View(settings)), armedAt, now, later, offset)
    {
      hide NextFire, AllHours, JobsAt, LocalHour;
      if hourNext.Some? && now >= hourNext.value {
        var jobs := JobsOf(LocalHour(hourNext.value, offset));
        slots := slots + [SlotRun(armedAt, hourNext.value, now, local, jobs)];
      }
      if creditNext.Some? && now >= creditNext.value {
        refreshes := refreshes + [RefreshRun(now, later, local.credit)];
        creditNext := NextInterval(later, local.credit);
      }
    }

    method JobsOf(h: int) returns (jobs: seq<Job>)
      ensures jobs == JobsAt(local, h)
    {
      jobs := [];
      if h in local.checkin {
        jobs := jobs + [Checkin];
      }
      if h in local.keepalive {
        jobs := jobs + [Keepalive];
      }
      if h in local.model {
        jobs := jobs + [ModelRefresh];
      }
    }

    /** The settings changed: take a new snapshot and plan the next refresh afresh. */
    method OnChanged(settings: Settings, now: int)
      requires settings.Valid()
      modifies this`local, this`ch, this`creditNext
      ensures View(settings) == CaughtUp(old(View(settings)), now) && ch == settings.ch
    {
      local, ch := settings.Snapshot();
      creditNext := NextInterval(now, local.credit);
    }

    method ArmedFor(now: int, offset: int) returns (hourNext: Option<int>)
      ensures hourNext == NextFire(now, AllHours(local), offset)
    {
      var all := local.checkin + local.keepalive;
      all := all + local.model;
      hourNext := None;
      if |all| > 0 {
        hourNext := FindNextFire(now, all, offset);
      }
    }
  }

  /** One pass of the event loop. */
  method Pass(loop: Loop, settings: Settings, turn: Turn, clock: nat -> int, k: nat, w: World)
    requires settings.Valid() && (loop.ch == settings.ch || loop.ch.closed)
    requires w.defaults == settings.defaults && w.persistent == settings.persistent && w.clock == clock
    modifies loop, settings`current, settings`ch, settings`file, settings.ch
    ensures settings.Valid() && (loop.ch == settings.ch || loop.ch.closed)
    ensures settings.ch == old(settings.ch) || fresh(settings.ch)
    ensures loop.View(settings) == AfterTurn(w, old(loop.View(settings)), turn, k)
  {
    hide NextFire, AllHours, NextInterval, AfterUpdates, Rung;
    var now := clock(k + 1);
    var hourNext := loop.ArmedFor(now, w.offset);
    var next := Earlier(hourNext, loop.creditNext);
    Others(settings, turn.updates, w);
    match turn.wake {
      case TimerRings =>
        if next.Some? {
          loop.OnTimer(settings, hourNext, now, clock(k + 2), clock(k + 3), w.offset);
        } else {
          NothingRings(loop.View(settings), now, clock(k + 2), clock(k + 3), w.offset);
        }
      case ChannelClosed =>
        if loop.ch.closed {
          loop.OnChanged(settings, clock(k + 3));
        }
    }
  }

  /** The event loop, whatever the settings, the clock and the others do. */
  method Run(settings: Settings, turns: seq<Turn>, clock: nat -> int, offset: int) returns (loop: Loop)
    requires settings.Valid()
    modifies settings`current, settings`ch, settings`file, settings.ch
    ensures fresh(loop) && settings.Valid() && (loop.ch == settings.ch || loop.ch.closed)
    ensures var w := World(settings.defaults, settings.persistent, clock, offset);
            loop.View(settings) == Play(w, old(settings.current), turns)
  {
    hide AfterTurn, Started;
    var w := World(settings.defaults, settings.persistent, clock, offset);
    loop := new Loop(settings, clock(0));
    for i := 0 to |turns|
      invariant fresh(loop) && settings.Valid() && (settings.ch == old(settings.ch) || fresh(settings.ch))
      invariant loop.ch == settings.ch || loop.ch.closed
      invariant loop.View(settings) == Play(w, old(settings.current), turns[..i])
    {
      assert turns[..i + 1][..i] == turns[..i];
      Pass(loop, settings, turns[i], clock, 3 * i, w);
    }
    assert turns[..|turns|] == turns;
  }

  lemma NothingRings(s: State, armedAt: int, now: int, later: int, offset: int)
    requires Earlier(NextFire(armedAt, AllHours(s.local), offset), s.creditNext).None?
    ensures Rung(s, armedAt, now, later, offset) == s
  {
  }

  // ---- what every run keeps ----------------------------------------------------------

  ghost predicate Forward(clock: nat -> int) {
    forall i: nat, j: nat :: i <= j ==> clock(i) <= clock(j)
  }

  /** No instant is served early, each runs the jobs of its hour, and one ring is over before the next is armed. */
  ghost predicate SlotsServed(slots: seq<SlotRun>, now: int, offset: int) {
    && (forall i :: 0 <= i < |slots| ==> SlotServed(slots[i], now, offset))
    && forall i, j :: 0 <= i < j < |slots| ==> slots[i].rangAt <= slots[j].armedAt
  }

  ghost predicate SlotServed(s: SlotRun, now: int, offset: int) {
    && s.due <= s.rangAt && s.armedAt <= s.rangAt <= now
    && NextFire(s.armedAt, AllHours(s.local), offset) == Some(s.due)
    && s.jobs == JobsAt(s.local, LocalHour(s.due, offset))
  }

  /** From the end of one refresh to the next, at least the interval in force at the later one passes. */
  ghost predicate RefreshesSpaced(rs: seq<RefreshRun>, now: int) {
    && (forall i :: 0 <= i < |rs| ==> rs[i].every > 0 && rs[i].rangAt <= rs[i].over <= now)
    && forall i :: 0 <= i < |rs| - 1 ==> rs[i].over + rs[i + 1].every <= rs[i + 1].rangAt
  }

  /** The planned refresh keeps its distance from the last one. */
  ghost predicate Planned(rs: seq<RefreshRun>, every: int, next: Option<int>) {
    match next
    case None => true
    case Some(t) => every > 0 && (rs != [] ==> rs[|rs| - 1].over + every <= t)
  }

  ghost predicate Kept(s: State, now: int, offset: int) {
    && SlotsServed(s.slots, now, offset)
    && RefreshesSpaced(s.refreshes, now) && Planned(s.refreshes, s.local.credit, s.creditNext)
    && (s.told || s.local == s.current)
  }

  lemma SlotAppended(slots: seq<SlotRun>, s: SlotRun, t0: int, t1: int, offset: int)
    requires SlotsServed(slots, t0, offset) && t0 <= s.armedAt && t0 <= t1 && SlotServed(s, t1, offset)
    ensures SlotsServed(slots + [s], t1, offset)
  {
    hide NextFire, JobsAt, LocalHour;
  }

  lemma SlotsLater(slots: seq<SlotRun>, t0: int, t1: int, offset: int)
    requires SlotsServed(slots, t0, offset) && t0 <= t1
    ensures SlotsServed(slots, t1, offset)
  {
    hide NextFire, JobsAt, LocalHour;
  }

  lemma RingKeeps(s: State, before: int, armedAt: int, now: int, later: int, offset: int)
    requires Kept(s, before, offset) && before <= armedAt <= now <= later
    ensures Kept(Rung(s, armedAt, now, later, offset), later, offset)
  {
    hide NextFire, AllHours, JobsAt, LocalHour, SlotsServed;
    var t := Rung(s, armedAt, now, later, offset);
    var hourNext := NextFire(armedAt, AllHours(s.local), offset);
    SlotsLater(s.slots, before, later, offset);
    if hourNext.Some? && hourNext.value <= now {
      var slot := SlotRun(armedAt, hourNext.value, now, s.local, JobsAt(s.local, LocalHour(hourNext.value, offset)));
      SlotAppended(s.slots, slot, before, later, offset);
    } else {
      assert t.slots == s.slots;
    }
  }

  lemma NoUpdates(w: World, current: Values, updates: seq<Update>)
    ensures var p := AfterUpdates(w, current, updates); !p.changed ==> p.current == current
  {
  }

  lemma TurnKeeps(w: World, s: State, turn: Turn, k: nat)
    requires Forward(w.clock) && Kept(s, w.clock(k), w.offset)
    ensures Kept(AfterTurn(w, s, turn, k), w.clock(k + 3), w.offset)
  {
    hide AfterUpdates, Rung, SlotsServed;
    NoUpdates(w, s.current, turn.updates);
    var t := Notified(s, AfterUpdates(w, s.current, turn.updates));
    assert Kept(t, w.clock(k), w.offset);
    if turn.wake.TimerRings? {
      RingKeeps(t, w.clock(k), w.clock(k + 1), w.clock(k + 2), w.clock(k + 3), w.offset);
    } else {
      SlotsLater(t.slots, w.clock(k), w.clock(k + 3), w.offset);
    }
  }

  lemma {:induction false} PlayKeeps(w: World, current: Values, turns: seq<Turn>)
    requires Forward(w.clock)
    ensures Kept(Play(w, current, turns), w.clock(3 * |turns|), w.offset)
  {
    if turns != [] {
      var n := |turns| - 1;
      PlayKeeps(w, current, turns[..n]);
      TurnKeeps(w, Play(w, current, turns[..n]), turns[n], 3 * n);
    }
  }

  /** Across any changes of the settings, refreshes keep the interval in force between them, nothing is served early,
      each instant served runs the jobs of its hour, and the loop's copy is current unless it has been told. */
  lemma RunIsOrderly(w: World, current: Values, turns: seq<Turn>)
    requires Forward(w.clock)
    ensures var s, now := Play(w, current, turns), w.clock(3 * |turns|);
            && RefreshesSpaced(s.refreshes, now) && SlotsServed(s.slots, now, w.offset)
            && (s.told || s.local == s.current)
  {
    PlayKeeps(w, current, turns);
  }

  // ---- the run, read off the turns and the clock alone ----------------------------------

  /** Whether an update takes effect; a reset does not when the file cannot be removed. */
  predicate Changes(w: World, u: Update) {
    u.SetTo? || u.removable || !w.persistent
  }

  predicate AnyChange(w: World, updates: seq<Update>) {
    exists u :: u in updates && Changes(w, u)
  }

  /** The settings the last effective update left. */
  function Latest(w: World, initially: Values, updates: seq<Update>): Values
  {
    if updates == [] then initially
    else
      var last := updates[|updates| - 1];
      if !Changes(w, last) then Latest(w, initially, updates[..|updates| - 1])
      else if last.SetTo? then last.v
      else Values(w.defaults.checkin, w.defaults.keepalive, [], w.defaults.credit)
  }

  function SettingsAfter(w: World, initially: Values, turns: seq<Turn>): Values
  {
    if turns == [] then initially
    else Latest(w, SettingsAfter(w, initially, turns[..|turns| - 1]), turns[|turns| - 1].updates)
  }

  /** The loop has been told of a change and has not caught up with it. */
  predicate Behind(w: World, turns: seq<Turn>)
  {
    turns != [] && !turns[|turns| - 1].wake.ChannelClosed? &&
    (Behind(w, turns[..|turns| - 1]) || AnyChange(w, turns[|turns| - 1].updates))
  }

  /** The last turn is one in which the loop catches up. */
  predicate CatchesUp(w: World, turns: seq<Turn>)
    requires turns != []
  {
    turns[|turns| - 1].wake.ChannelClosed? &&
    (Behind(w, turns[..|turns| - 1]) || AnyChange(w, turns[|turns| - 1].updates))
  }

  /** The settings the loop goes by: those it found when it last caught up. */
  function InForce(w: World, initially: Values, turns: seq<Turn>): Values
  {
    if turns == [] then initially
    else if CatchesUp(w, turns) then SettingsAfter(w, initially, turns)
    else InForce(w, initially, turns[..|turns| - 1])
  }

  /** When the loop last caught up, or started. */
  function CaughtUpAt(w: World, turns: seq<Turn>): int
  {
    if turns == [] then w.clock(0)
    else if CatchesUp(w, turns) then w.clock(3 * |turns|)
    else CaughtUpAt(w, turns[..|turns| - 1])
  }

  /** The end of the last refresh, or the last catching-up or the start if that is later. */
  function Base(w: World, turns: seq<Turn>, rs: seq<RefreshRun>): int {
    LaterOf(CaughtUpAt(w, turns), rs)
  }

  function LaterOf(c: int, rs: seq<RefreshRun>): int {
    if rs != [] && rs[|rs| - 1].over > c then rs[|rs| - 1].over else c
  }

  lemma {:induction false} LatestIs(w: World, current: Values, updates: seq<Update>)
    ensures AfterUpdates(w, current, updates) == Posted(Latest(w, current, updates), AnyChange(w, updates))
  {
    if updates != [] {
      var init, last := updates[..|updates| - 1], updates[|updates| - 1];
      LatestIs(w, current, init);
      assert updates == init + [last];
      assert AnyChange(w, updates) <==> AnyChange(w, init) || Changes(w, last);
    }
  }

  lemma PlayAppended(w: World, current: Values, turns: seq<Turn>, turn: Turn)
    ensures Play(w, current, turns + [turn]) == AfterTurn(w, Play(w, current, turns), turn, 3 * |turns|)
  {
    hide AfterTurn;
    assert (turns + [turn])[..|turns|] == turns;
  }

  /** The settings, the loop's copy of them, and whether it is behind. */
  lemma {:induction false} SettingsAreHistory(w: World, current: Values, turns: seq<Turn>)
    ensures var s := Play(w, current, turns);
            && s.current == SettingsAfter(w, current, turns)
            && s.local == InForce(w, current, turns)
            && (s.told <==> Behind(w, turns))
  {
    if turns != [] {
      hide Latest, AnyChange, AfterUpdates, NextFire, NextInterval, AllHours, JobsAt, LocalHour;
      var init, turn := turns[..|turns| - 1], turns[|turns| - 1];
      SettingsAreHistory(w, current, init);
      LatestIs(w, SettingsAfter(w, current, init), turn.updates);
    }
  }

  /** The next refresh is planned an interval after the last one, or after the catching-up at c. */
  ghost predicate PlannedAfter(c: int, s: State, now: int) {
    && s.creditNext == (if s.local.credit > 0 then Some(LaterOf(c, s.refreshes) + s.local.credit) else None)
    && c <= now
    && (s.refreshes != [] ==> s.refreshes[|s.refreshes| - 1].over <= now)
  }

  ghost predicate PlannedFromBase(w: World, s: State, turns: seq<Turn>) {
    PlannedAfter(CaughtUpAt(w, turns), s, w.clock(3 * |turns|))
  }

  lemma PlanOfRing(c: int, s: State, before: int, armedAt: int, now: int, later: int, offset: int)
    requires PlannedAfter(c, s, before) && before <= now <= later
    ensures PlannedAfter(c, Rung(s, armedAt, now, later, offset), later)
  {
    hide NextFire, AllHours, JobsAt, LocalHour;
  }

  lemma PlanOfCatchingUp(c: int, s: State, before: int, later: int)
    requires PlannedAfter(c, s, before) && before <= later
    ensures PlannedAfter(later, CaughtUp(s, later), later)
  {
  }

  lemma CaughtUpMore(w: World, turns: seq<Turn>, turn: Turn)
    ensures var caught := turn.wake.ChannelClosed? && (Behind(w, turns) || AnyChange(w, turn.updates));
            && CatchesUp(w, turns + [turn]) == caught
            && CaughtUpAt(w, turns + [turn]) == if caught then w.clock(3 * |turns| + 3) else CaughtUpAt(w, turns)
  {
    hide AnyChange;
    assert (turns + [turn])[..|turns|] == turns;
  }

  lemma PlanStep(w: World, s: State, turns: seq<Turn>, turn: Turn)
    requires Forward(w.clock) && PlannedFromBase(w, s, turns) && (s.told <==> Behind(w, turns))
    ensures PlannedFromBase(w, AfterTurn(w, s, turn, 3 * |turns|), turns + [turn])
  {
    hide Latest, AnyChange, AfterUpdates, Rung, CaughtUp, Forward, CaughtUpAt, Behind, CatchesUp, LaterOf;
    var k, c := 3 * |turns|, CaughtUpAt(w, turns);
    LatestIs(w, s.current, turn.updates);
    CaughtUpMore(w, turns, turn);
    ClockForward(w, k);
    var t := Notified(s, AfterUpdates(w, s.current, turn.updates));
    assert 3 * |turns + [turn]| == k + 3;
    assert PlannedAfter(c, t, w.clock(k));
    if turn.wake.TimerRings? {
      PlanOfRing(c, t, w.clock(k), w.clock(k + 1), w.clock(k + 2), w.clock(k + 3), w.offset);
    } else if t.told {
      PlanOfCatchingUp(c, t, w.clock(k), w.clock(k + 3));
    }
  }

  lemma ClockForward(w: World, k: nat)
    requires Forward(w.clock)
    ensures w.clock(k) <= w.clock(k + 1) <= w.clock(k + 2) <= w.clock(k + 3)
  {
  }

  lemma {:induction false} PlanIsHistory(w: World, current: Values, turns: seq<Turn>)
    requires Forward(w.clock)
    ensures PlannedFromBase(w, Play(w, current, turns), turns)
  {
    if turns != [] {
      hide Play, PlannedFromBase, AfterTurn, Behind;
      var init, turn := turns[..|turns| - 1], turns[|turns| - 1];
      assert init + [turn] == turns;
      PlanIsHistory(w, current, init);
      SettingsAreHistory(w, current, init);
      PlayAppended(w, current, init, turn);
      PlanStep(w, Play(w, current, init), init, turn);
    }
  }

  /** One more turn records one more refresh exactly if the timer rings in it, refreshes are on, and the interval in
      force has passed since the last refresh, or since the loop last caught up or started if that is later. */
  lemma RefreshExactly(w: World, current: Values, turns: seq<Turn>, turn: Turn)
    requires Forward(w.clock)
    ensures var before, after := Play(w, current, turns).refreshes, Play(w, current, turns + [turn]).refreshes;
            var k, every := 3 * |turns|, InForce(w, current, turns).credit;
            after == if turn.wake.TimerRings? && every > 0 && w.clock(k + 2) >= Base(w, turns, before) + every
                     then before + [RefreshRun(w.clock(k + 2), w.clock(k + 3), every)] else before
  {
    hide Play, LaterOf, InForce, Behind, AfterUpdates, NextFire, AllHours, JobsAt, LocalHour, NextInterval, Forward;
    PlanIsHistory(w, current, turns);
    SettingsAreHistory(w, current, turns);
    PlayAppended(w, current, turns, turn);
  }

  /** One more turn serves one more instant exactly if the timer rings in it and an hour in force has struck since it
      was armed: the first such instant, with the jobs whose lists name its hour. */
  lemma SlotExactly(w: World, current: Values, turns: seq<Turn>, turn: Turn)
    requires ValidHours(AllHours(InForce(w, current, turns)))
    ensures var before, after := Play(w, current, turns).slots, Play(w, current, turns + [turn]).slots;
            var k, v := 3 * |turns|, InForce(w, current, turns);
            var hours := v.checkin + v.keepalive + v.model;
            if turn.wake.TimerRings? && exists x :: w.clock(k + 1) < x <= w.clock(k + 2) && Due(x, hours, w.offset)
            then
              && |after| == |before| + 1 && after[..|before|] == before
              && var slot := after[|before|];
                 && w.clock(k + 1) < slot.due <= w.clock(k + 2) && Due(slot.due, hours, w.offset)
                 && (forall x :: w.clock(k + 1) < x < slot.due ==> !Due(x, hours, w.offset))
                 && (Checkin in slot.jobs <==> LocalHour(slot.due, w.offset) in v.checkin)
                 && (Keepalive in slot.jobs <==> LocalHour(slot.due, w.offset) in v.keepalive)
                 && (ModelRefresh in slot.jobs <==> LocalHour(slot.due, w.offset) in v.model)
            else after == before
  {
    hide Play, InForce, Behind, AfterUpdates, NextFire, LocalHour, NextInterval, Due, ValidHours;
    var v, k := InForce(w, current, turns), 3 * |turns|;
    SettingsAreHistory(w, current, turns);
    PlayAppended(w, current, turns, turn);
    assert AllHours(v) == v.checkin + v.keepalive + v.model;
    NextFireIsLeast(w.clock(k + 1), AllHours(v), w.offset);
    if AllHours(v) == [] {
      NothingDue(w.offset);
    }
  }

  lemma NothingDue(offset: int)
    ensures forall t :: !Due(t, [], offset)
  {
    hide OnTheHour, LocalHour;
  }

  ghost predicate NoneNegative(hours: seq<int>) {
    forall h :: h in hours ==> h >= 0
  }

  /** An instant served while no hour in force is negative is later than every instant served before it. */
  lemma SlotsIncrease(w: World, current: Values, turns: seq<Turn>, i: nat, j: nat)
    requires Forward(w.clock)
    requires i < j < |Play(w, current, turns).slots|
    requires NoneNegative(AllHours(Play(w, current, turns).slots[j].local))
    ensures Play(w, current, turns).slots[i].due < Play(w, current, turns).slots[j].due
  {
    PlayKeeps(w, current, turns);
    hide NextFire, Play, AllHours, JobsAt, LocalHour;
    var slots := Play(w, current, turns).slots;
    assert SlotServed(slots[i], w.clock(3 * |turns|), w.offset);
    assert SlotServed(slots[j], w.clock(3 * |turns|), w.offset);
    NextFireIsLater(slots[j].armedAt, AllHours(slots[j].local), w.offset);
  }

  ghost predicate Increasing(slots: seq<SlotRun>) {
    forall i, j :: 0 <= i < j < |slots| ==> slots[i].due < slots[j].due
  }

  ghost predicate Unchanged(turns: seq<Turn>) {
    forall i :: 0 <= i < |turns| ==> turns[i].updates == []
  }

  lemma {:induction false} LocalStays(w: World, current: Values, turns: seq<Turn>)
    requires Unchanged(turns)
    ensures var s := Play(w, current, turns);
            && s.local == s.current == current && !s.told
            && forall i :: 0 <= i < |s.slots| ==> s.slots[i].local == current
  {
    if turns != [] {
      var n := |turns| - 1;
      LocalStays(w, current, turns[..n]);
      hide NextFire, AllHours, JobsAt, LocalHour;
    }
  }

  /** Settings under which nothing is served twice: exactly those without a negative hour. */
  lemma NoSlotTwiceExactly(current: Values, defaults: Values, persistent: bool, offset: int)
    ensures (forall clock, turns :: Forward(clock) && Unchanged(turns) ==>
               Increasing(Play(World(defaults, persistent, clock, offset), current, turns).slots))
            <==> NoneNegative(AllHours(current))
  {
    if NoneNegative(AllHours(current)) {
      forall clock, turns | Forward(clock) && Unchanged(turns)
        ensures Increasing(Play(World(defaults, persistent, clock, offset), current, turns).slots)
      {
        var w := World(defaults, persistent, clock, offset);
        LocalStays(w, current, turns);
        forall i, j | 0 <= i < j < |Play(w, current, turns).slots|
          ensures Play(w, current, turns).slots[i].due < Play(w, current, turns).slots[j].due
        {
          SlotsIncrease(w, current, turns, i, j);
        }
      }
    } else {
      hide *;
      var clock := ServedTwice(current, defaults, persistent, offset);
      RingsMore(2);
    }
  }

  lemma ServedTwice(current: Values, defaults: Values, persistent: bool, offset: int) returns (clock: nat -> int)
    requires !NoneNegative(AllHours(current))
    ensures Forward(clock) && !Increasing(Play(World(defaults, persistent, clock, offset), current, Rings(2)).slots)
  {
    NextFireIsLaterExactly(AllHours(current), offset);
    hide NextFire, AllHours, Forward, Play, Increasing, Rings;
    var now :| NextFire(now, AllHours(current), offset).Some? && NextFire(now, AllHours(current), offset).value <= now;
    clock := (k: nat) => now;
    StandingForward(clock, now);
    var f := NextFire(now, AllHours(current), offset).value;
    assert FoundEachTime(World(defaults, persistent, clock, offset), current, 2, f);
    ServedAtEveryRing(World(defaults, persistent, clock, offset), current, 2, f);
    TwiceIsNotIncreasing(Play(World(defaults, persistent, clock, offset), current, Rings(2)).slots, f,
                         JobsAt(current, LocalHour(f, offset)));
  }

  lemma TwiceIsNotIncreasing(slots: seq<SlotRun>, f: int, jobs: seq<Job>)
    requires AllServed(slots, 2, f, jobs)
    ensures !Increasing(slots)
  {
    assert slots[0].due == slots[1].due;
  }

  /** n rings, with nothing changed in between. */
  function Rings(n: nat): seq<Turn> {
    seq(n, _ => Turn([], TimerRings))
  }

  lemma RingsMore(n: nat)
    requires n > 0
    ensures |Rings(n)| == n && Rings(n)[..n - 1] == Rings(n - 1) && Rings(n)[n - 1] == Turn([], TimerRings)
    ensures Unchanged(Rings(n))
  {
  }

  lemma StandingForward(clock: nat -> int, now: int)
    requires clock == ((k: nat) => now)
    ensures Forward(clock) && forall k: nat :: clock(k) == now
  {
  }

  ghost predicate AllServed(slots: seq<SlotRun>, n: nat, due: int, jobs: seq<Job>) {
    |slots| == n && forall i :: 0 <= i < n ==> slots[i].due == due && slots[i].jobs == jobs
  }

  /** n times, the timer is armed for the instant f, which is over when it rings. */
  ghost predicate FoundEachTime(w: World, current: Values, n: nat, f: int) {
    forall k: nat :: k < n ==> FoundAt(w, current, 3 * k, f)
  }

  ghost predicate FoundAt(w: World, current: Values, k: nat, f: int) {
    NextFire(w.clock(k + 1), AllHours(current), w.offset) == Some(f) && f <= w.clock(k + 2)
  }

  lemma FoundBefore(w: World, current: Values, n: nat, f: int)
    requires n > 0 && FoundEachTime(w, current, n, f)
    ensures FoundEachTime(w, current, n - 1, f) && FoundAt(w, current, 3 * (n - 1), f)
  {
    hide FoundAt;
  }

  /** An instant that is found each time the timer is armed is served at every ring. */
  lemma {:induction false} ServedAtEveryRing(w: World, current: Values, n: nat, f: int)
    requires FoundEachTime(w, current, n, f)
    ensures AllServed(Play(w, current, Rings(n)).slots, n, f, JobsAt(current, LocalHour(f, w.offset)))
    ensures var s := Play(w, current, Rings(n)); s.local == s.current == current && !s.told
  {
    hide *;
    if n == 0 {
      NoRings(w, current, f);
    } else {
      FoundBefore(w, current, n, f);
      ServedAtEveryRing(w, current, n - 1, f);
      RingsMore(n);
      PlayMore(w, current, Rings(n));
      OneRing(w, Play(w, current, Rings(n - 1)), 3 * (n - 1), n - 1, f);
    }
  }

  lemma NoRings(w: World, current: Values, f: int)
    ensures AllServed(Play(w, current, Rings(0)).slots, 0, f, JobsAt(current, LocalHour(f, w.offset)))
    ensures Play(w, current, Rings(0)) == Started(current, w.clock(0))
    ensures var s := Play(w, current, Rings(0)); s.local == s.current == current && !s.told
  {
    hide JobsAt, LocalHour;
    assert Rings(0) == [];
  }

  lemma PlayMore(w: World, current: Values, turns: seq<Turn>)
    requires turns != []
    ensures var n := |turns| - 1;
            Play(w, current, turns) == AfterTurn(w, Play(w, current, turns[..n]), turns[n], 3 * n)
  {
    hide AfterTurn;
  }

  lemma OneRing(w: World, s: State, k: nat, n: nat, f: int)
    requires s.local == s.current && !s.told
    requires AllServed(s.slots, n, f, JobsAt(s.local, LocalHour(f, w.offset)))
    requires FoundAt(w, s.local, k, f)
    ensures var t := AfterTurn(w, s, Turn([], TimerRings), k);
            && AllServed(t.slots, n + 1, f, JobsAt(s.local, LocalHour(f, w.offset)))
            && t.local == t.current == s.current && !t.told
  {
    hide NextFire, AllHours, JobsAt, LocalHour;
    assert AfterUpdates(w, s.current, []) == Posted(s.current, false);
    assert Notified(s, Posted(s.current, false)) == s;
  }

  /** With model-refresh hour -1, an accepted configuration, the check-in of 23 o'clock is run at every ring until
      midnight, however many there are. */
  lemma MinusOneRepeats(w: World, n: nat)
    requires forall k: nat :: k <= 3 * n ==> 23 * HOUR <= w.clock(k) + w.offset < DAY
    ensures AllServed(Play(w, Values([23], [], [-1], 0), Rings(n)).slots, n, 23 * HOUR - w.offset, [Checkin])
  {
    hide *;
    var v, f := Values([23], [], [-1], 0), 23 * HOUR - w.offset;
    MinusOneFound(w, n);
    CheckinAlone(f, w.offset);
    ServedAtEveryRing(w, v, n, f);
  }

  lemma MinusOneFound(w: World, n: nat)
    requires forall k: nat :: k <= 3 * n ==> 23 * HOUR <= w.clock(k) + w.offset < DAY
    ensures FoundEachTime(w, Values([23], [], [-1], 0), n, 23 * HOUR - w.offset)
  {
    hide NextFire, AllHours;
    var v, f := Values([23], [], [-1], 0), 23 * HOUR - w.offset;
    MinusOneHours();
    forall k: nat | k < n
      ensures FoundAt(w, v, 3 * k, f)
    {
      MinusOne(w.clock(3 * k + 1), w.offset);
    }
  }

  lemma MinusOneHours()
    ensures AllHours(Values([23], [], [-1], 0)) == [23, -1]
  {
  }

  lemma CheckinAlone(f: int, offset: int)
    requires f == 23 * HOUR - offset
    ensures JobsAt(Values([23], [], [-1], 0), LocalHour(f, offset)) == [Checkin]
  {
    MinusOne(f, offset);
    hide NextFire, LocalHour;
  }

  lemma MinusOne(now: int, offset: int)
    requires 23 * HOUR <= now + offset < DAY
    ensures NextFire(now, [23, -1], offset) == NextFire(now, [-1], offset) == Some(23 * HOUR - offset)
    ensures LocalHour(23 * HOUR - offset, offset) == 23
  {
    assert [23, -1][..1] == [23] && [23][..0] == [] && [-1][..0] == [];
    assert DayStart(now, offset) == -offset;
  }
}
