/** internal/server/admin.go: login sessions, each usable once, at most 32 at a time. Times are nanoseconds. */
module OAuthSessions {
  import opened Options
  import opened Durations
  import opened Sets

  const TTL: nat := 10 * MINUTE
  const MAX_SESSIONS: nat := 32

  datatype Login = Login(id: string, state: string, url: string)
  datatype Session = Session(login: Login, expiresAt: int)

  type Table = map<string, Session>

  predicate Expired(s: Session, now: int) { now > s.expiresAt }

  /** The sessions still usable. */
  function Live(t: Table, now: int): Table {
    map id | id in t && !Expired(t[id], now) :: t[id]
  }

  function AfterPut(t: Table, login: Login, now: int): Table {
    var live := Live(t, now);
    if |live| >= MAX_SESSIONS then live else live[login.id := Session(login, now + TTL)]
  }

  function PutAccepted(t: Table, now: int): bool {
    |Live(t, now)| < MAX_SESSIONS
  }

  function TakeResult(t: Table, id: string, now: int): Option<Login> {
    if id in t && !Expired(t[id], now) then Some(t[id].login) else None
  }

  class Sessions {
    var byID: Table

    constructor ()
      ensures byID == map[]
    {
      byID := map[];
    }

    method Put(login: Login, now: int) returns (ok: bool)
      modifies this
      ensures byID == AfterPut(old(byID), login, now) && ok == PutAccepted(old(byID), now)
    {
      var rest := byID.Keys;
      ghost var before := byID;
      while rest != {}
        invariant rest <= byID.Keys <= before.Keys
        invariant forall id :: id in byID ==> byID[id] == before[id]
        invariant forall id :: id in before && id !in rest ==> (id in byID <==> !Expired(before[id], now))
      {
        var id :| id in rest;
        rest := rest - {id};
        if Expired(byID[id], now) {
          byID := byID - {id};
        }
      }
      assert byID == Live(before, now);
      if |byID| >= MAX_SESSIONS {
        return false;
      }
      byID := byID[login.id := Session(login, now + TTL)];
      ok := true;
    }

    method Take(id: string, now: int) returns (login: Option<Login>)
      modifies this
      ensures byID == old(byID) - {id} && login == TakeResult(old(byID), id, now)
    {
      if id !in byID {
        return None;
      }
      var sess := byID[id];
      byID := byID - {id};
      if Expired(sess, now) {
        return None;
      }
      login := Some(sess.login);
    }
  }

  // ---- over every run -------------------------------------------------------

  datatype Event = Put(login: Login, now: int) | Take(id: string, now: int)

  function IdOf(e: Event): string {
    if e.Put? then e.login.id else e.id
  }

  function After(t: Table, e: Event): Table {
    match e
    case Put(login, now) => AfterPut(t, login, now)
    case Take(id, _) => t - {id}
  }

  function Run(events: seq<Event>): Table
  {
    if events == [] then map[] else After(Run(events[..|events| - 1]), events[|events| - 1])
  }

  /** Whether the i-th event succeeded. */
  predicate Succeeds(events: seq<Event>, i: nat)
    requires i < |events|
  {
    match events[i]
    case Put(_, now) => PutAccepted(Run(events[..i]), now)
    case Take(id, now) => TakeResult(Run(events[..i]), id, now).Some?
  }

  ghost predicate ClockForward(events: seq<Event>) {
    forall i, j :: 0 <= i < j < |events| ==> events[i].now <= events[j].now
  }

  /** Whether the i-th event takes the id or replaces its session. */
  predicate Touches(events: seq<Event>, id: string, i: nat)
    requires i < |events|
  {
    IdOf(events[i]) == id && (events[i].Take? || Succeeds(events, i))
  }

  /** The session was put by event p, and no event since took or replaced it. */
  ghost predicate PutBy(events: seq<Event>, id: string, p: nat, s: Session) {
    && p < |events| && events[p].Put? && events[p].login.id == id && Succeeds(events, p)
    && s == Session(events[p].login, events[p].now + 600_000_000_000)
    && forall j :: p < j < |events| ==> !Touches(events, id, j)
  }

  lemma SucceedsPrefix(events: seq<Event>, n: nat, i: nat)
    requires i < n <= |events|
    ensures Succeeds(events[..n], i) == Succeeds(events, i)
  {
    assert events[..n][..i] == events[..i];
  }

  /** Every session held is the latest accepted put of its id, not yet taken. */
  lemma {:induction false} HeldSessionsWerePut(events: seq<Event>, id: string)
    requires id in Run(events)
    ensures exists p :: PutBy(events, id, p, Run(events)[id])
  {
    var n := |events| - 1;
    var init, e := events[..n], events[n];
    var t := Run(init);
    assert events[..n] == init;
    if e.Put? && e.login.id == id && PutAccepted(t, e.now) {
      assert PutBy(events, id, n, Run(events)[id]);
    } else {
      assert id in t && Run(events)[id] == t[id];
      HeldSessionsWerePut(init, id);
      var p :| PutBy(init, id, p, t[id]);
      PutByLater(events, id, p, t[id]);
    }
  }

  lemma PutByLater(events: seq<Event>, id: string, p: nat, s: Session)
    requires events != []
    requires PutBy(events[..|events| - 1], id, p, s)
    requires !Touches(events, id, |events| - 1)
    ensures PutBy(events, id, p, s)
  {
    hide Succeeds;
    var n := |events| - 1;
    forall j: nat | j < n
      ensures Succeeds(events[..n], j) == Succeeds(events, j) && events[..n][j] == events[j]
    {
      SucceedsPrefix(events, n, j);
    }
    assert forall j :: p < j < n ==> Touches(events, id, j) == Touches(events[..n], id, j);
  }

  lemma PutByEarlier(events: seq<Event>, id: string, p: nat, s: Session)
    requires PutBy(events, id, p, s) && p < |events| - 1
    ensures PutBy(events[..|events| - 1], id, p, s) && !Touches(events, id, |events| - 1)
  {
    hide Succeeds;
    var n := |events| - 1;
    forall j: nat | j < n
      ensures Succeeds(events[..n], j) == Succeeds(events, j) && events[..n][j] == events[j]
    {
      SucceedsPrefix(events, n, j);
    }
    assert forall j :: p < j < n ==> Touches(events[..n], id, j) == Touches(events, id, j);
  }

  /** A session put and not taken since is still held until it expires. */
  lemma {:induction false} PutSessionsAreHeld(events: seq<Event>, id: string, p: nat, s: Session, now: int)
    requires PutBy(events, id, p, s) && ClockForward(events)
    requires events[|events| - 1].now <= now <= s.expiresAt
    ensures id in Run(events) && Run(events)[id] == s
  {
    var n := |events| - 1;
    assert events[..n] + [events[n]] == events;
    if p < n {
      PutByEarlier(events, id, p, s);
      assert events[..n][n - 1].now <= events[n].now;
      PutSessionsAreHeld(events[..n], id, p, s, now);
    }
  }

  /** A take succeeds exactly when the id's latest accepted put has not been taken yet and is at most TTL old; it then
      gives that put's login. */
  lemma TakeSucceedsExactly(events: seq<Event>, i: nat)
    requires i < |events| && events[i].Take? && ClockForward(events)
    ensures var r := TakeResult(Run(events[..i]), events[i].id, events[i].now);
            forall login ::
              r == Some(login) <==>
              exists p: nat, s ::
                PutBy(events[..i], events[i].id, p, s) && s.login == login && events[i].now <= s.expiresAt
  {
    var before, id, now := events[..i], events[i].id, events[i].now;
    var t := Run(before);
    hide Run;
    if id in t {
      HeldSessionsWerePut(before, id);
    }
    forall p: nat, s | PutBy(before, id, p, s) && now <= s.expiresAt
      ensures id in t && t[id] == s
    {
      assert before[i - 1] == events[i - 1];
      PutSessionsAreHeld(before, id, p, s, now);
    }
  }

  function Puts(events: seq<Event>, id: string): nat
  {
    if events == [] then 0
    else
      var n := |events| - 1;
      Puts(events[..n], id) + if events[n].Put? && IdOf(events[n]) == id && Succeeds(events, n) then 1 else 0
  }

  function Takes(events: seq<Event>, id: string): nat
  {
    if events == [] then 0
    else
      var n := |events| - 1;
      Takes(events[..n], id) + if events[n].Take? && IdOf(events[n]) == id && Succeeds(events, n) then 1 else 0
  }

  /** No login is handed out more often than it was put, and one still held has not been handed out. */
  lemma {:induction false} TakenAtMostOncePerPut(events: seq<Event>, id: string)
    ensures Takes(events, id) + (if id in Run(events) then 1 else 0) <= Puts(events, id)
  {
    if events != [] {
      TakenAtMostOncePerPut(events[..|events| - 1], id);
    }
  }

  /** A put is refused exactly when 32 unexpired sessions remain. */
  lemma PutRefusedExactly(events: seq<Event>, i: nat)
    requires i < |events| && events[i].Put?
    ensures !Succeeds(events, i) <==> |Live(Run(events[..i]), events[i].now)| == 32
  {
    AtMostMaxSessions(events[..i]);
    SubTableSize(Live(Run(events[..i]), events[i].now), Run(events[..i]));
  }

  /** At most 32 sessions are held. */
  lemma {:induction false} AtMostMaxSessions(events: seq<Event>)
    ensures |Run(events)| <= 32
  {
    if events != [] {
      var t, e := Run(events[..|events| - 1]), events[|events| - 1];
      AtMostMaxSessions(events[..|events| - 1]);
      match e {
        case Put(login, now) =>
          var live := Live(t, now);
          SubTableSize(live, t);
          assert login.id !in live ==> live[login.id := Session(login, now + TTL)].Keys == live.Keys + {login.id};
          assert login.id in live ==> live[login.id := Session(login, now + TTL)].Keys == live.Keys;
        case Take(id, _) =>
          SubTableSize(t - {id}, t);
      }
    }
  }

  lemma SubTableSize(a: Table, b: Table)
    requires a.Keys <= b.Keys
    ensures |a| <= |b|
  {
    SubsetSize(a.Keys, b.Keys);
    assert |a| == |a.Keys| && |b| == |b.Keys|;
  }
}
