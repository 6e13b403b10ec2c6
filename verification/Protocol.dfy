/** internal/schedule and internal/scheduler together: any number of timer loops following the settings.

    A loop takes a snapshot of the settings together with the current change channel, and takes a new one when that
    channel is closed. Set and Reset replace the settings, close the current channel and install a new one. */
module Protocol {
  import opened Schedule

  /** A timer loop: its copy of the settings and the channel it waits on. */
  datatype Runner = Runner(local: Values, ch: nat)

  /** Channels are numbered in the order they are made; `panicked` records the closing of a closed channel. */
  datatype Net = Net(current: Values, defaults: Values, ch: nat, made: nat, closed: set<nat>, panicked: bool,
                     runners: map<nat, Runner>)

  datatype Label =
    | Set(v: Values)
    | Reset
    | Snapshot(r: nat)   // a loop starts
    | Notice(r: nat)     // a loop sees its channel closed

  function Announce(s: Net, v: Values): Net {
    s.(current := v, closed := s.closed + {s.ch}, panicked := s.panicked || s.ch in s.closed,
       ch := s.made, made := s.made + 1)
  }

  function Take(s: Net, r: nat): Net {
    s.(runners := s.runners[r := Runner(s.current, s.ch)])
  }

  /** Whether a step can happen now: a loop waits until its channel is closed. */
  predicate Enabled(s: Net, l: Label) {
    match l
    case Set(_) => true
    case Reset => true
    case Snapshot(r) => r !in s.runners
    case Notice(r) => r in s.runners && s.runners[r].ch in s.closed
  }

  function Next(s: Net, l: Label): Net
    requires Enabled(s, l)
  {
    match l
    case Set(v) => Announce(s, v)
    case Reset => Announce(s, AfterReset(s.defaults))
    case Snapshot(r) => Take(s, r)
    case Notice(r) => Take(s, r)
  }

  function Start(loaded: Values, defaults: Values): Net {
    Net(loaded, defaults, 0, 1, {}, false, map[])
  }

  /** Every interleaving: a list of states, each reached from the one before by an enabled step. */
  ghost predicate IsRun(run: seq<Net>) {
    && run != []
    && (exists loaded, defaults :: run[0] == Start(loaded, defaults))
    && forall i :: 0 <= i < |run| - 1 ==> exists l :: Enabled(run[i], l) && run[i + 1] == Next(run[i], l)
  }

  /** A loop is up to date, or is about to be told. */
  predicate UpToDateOrTold(s: Net, r: nat)
    requires r in s.runners
  {
    s.runners[r].ch in s.closed || s.runners[r].local == s.current
  }

  ghost predicate Inv(s: Net) {
    && !s.panicked
    && s.made == s.ch + 1
    && (forall c: nat :: c in s.closed <==> c < s.ch)
    && forall r :: r in s.runners ==>
         s.runners[r].ch <= s.ch && (s.runners[r].ch == s.ch ==> s.runners[r].local == s.current)
  }

  lemma NextKeepsInv(s: Net, l: Label)
    requires Inv(s) && Enabled(s, l)
    ensures Inv(Next(s, l))
  {
  }

  lemma {:induction false} RunKeepsInv(run: seq<Net>, i: nat)
    requires IsRun(run) && i < |run|
    ensures Inv(run[i])
  {
    if i > 0 {
      RunKeepsInv(run, i - 1);
      var l :| Enabled(run[i - 1], l) && run[(i - 1) + 1] == Next(run[i - 1], l);
      NextKeepsInv(run[i - 1], l);
    }
  }

  /** No settings change is lost, in any interleaving with any number of loops: each loop is up to date or holds a
      closed channel, only the current channel is open, and none is ever closed twice. */
  lemma NoLostChange(run: seq<Net>, i: nat)
    requires IsRun(run) && i < |run|
    ensures !run[i].panicked
    ensures forall c: nat :: c < run[i].made ==> (c !in run[i].closed <==> c == run[i].ch)
    ensures forall r :: r in run[i].runners ==> UpToDateOrTold(run[i], r)
  {
    RunKeepsInv(run, i);
  }

  /** A loop that is told catches up at its next step, and stays so until the settings change again. */
  lemma ToldLoopCatchesUp(run: seq<Net>, i: nat, r: nat)
    requires IsRun(run) && i < |run| && r in run[i].runners
    ensures Enabled(run[i], Notice(r)) ==>
              var s := Next(run[i], Notice(r)); s.runners[r].local == s.current && s.runners[r].ch !in s.closed
    ensures !Enabled(run[i], Notice(r)) ==> run[i].runners[r].local == run[i].current
  {
    RunKeepsInv(run, i);
  }

  /** A loop that has seen a change keeps that knowledge: after any change, every older snapshot is told. */
  lemma ChangeTellsEveryLoop(run: seq<Net>, i: nat, l: Label)
    requires IsRun(run) && i < |run|
    requires l.Set? || l.Reset?
    ensures forall r :: r in run[i].runners ==> Enabled(Next(run[i], l), Notice(r))
  {
    RunKeepsInv(run, i);
  }
}
