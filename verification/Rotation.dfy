/** internal/server/handler.go: one chat request trying accounts in turn, and what a run of requests costs the pool. */
module Rotation {
  import opened Options
  import opened Durations
  import opened AccountPool
  import PoolHistory
  import Stats
  import StatsLaws

  datatype Config = Config(maxRotate: int, hardCooldown: int, softCooldown: int, errThreshold: int, errCooldown: int,
                           refreshSkew: int)

  predicate Sound(c: Config) {
    && c.maxRotate > 0 && c.hardCooldown > 0 && c.softCooldown > 0
    && c.errThreshold > 0 && c.errCooldown > 0 && c.refreshSkew > 0
  }

  /** NewHandler replaces what is not positive, each field on its own. */
  function WithDefaults(c: Config): (r: Config)
    ensures Sound(r)
    ensures r.maxRotate == c.maxRotate || (c.maxRotate <= 0 && r.maxRotate == 3)
    ensures r.hardCooldown == c.hardCooldown || (c.hardCooldown <= 0 && r.hardCooldown == 12 * HOUR)
    ensures r.softCooldown == c.softCooldown || (c.softCooldown <= 0 && r.softCooldown == 60 * SECOND)
    ensures r.errThreshold == c.errThreshold || (c.errThreshold <= 0 && r.errThreshold == 3)
    ensures r.errCooldown == c.errCooldown || (c.errCooldown <= 0 && r.errCooldown == 10 * MINUTE)
    ensures r.refreshSkew == c.refreshSkew || (c.refreshSkew <= 0 && r.refreshSkew == 10 * MINUTE)
    ensures Sound(c) ==> r == c
  {
    Config(
      if c.maxRotate <= 0 then 3 else c.maxRotate,
      if c.hardCooldown <= 0 then 12 * HOUR else c.hardCooldown,
      if c.softCooldown <= 0 then 60 * SECOND else c.softCooldown,
      if c.errThreshold <= 0 then 3 else c.errThreshold,
      if c.errCooldown <= 0 then 10 * MINUTE else c.errCooldown,
      if c.refreshSkew <= 0 then 10 * MINUTE else c.refreshSkew)
  }

  datatype Kind = HardCredit | SoftRate | SessionDead | NotFound | OtherError

  /** How one attempt ends: the token refresh fails, the transport fails, the upstream refuses, or it serves. */
  datatype Outcome =
    | RefreshDead
    | RefreshFailed(msg: string)
    | TransportError
    | Refused(kind: Kind)
    | Success

  /** The pool operation that settles an attempt. */
  function Settlement(c: Config, uid: string, o: Outcome, now: int): Op {
    match o
    case RefreshDead => Disable(uid, "refresh session dead")
    case RefreshFailed(msg) => Cooldown(uid, now, c.errCooldown, "refresh: " + msg)
    case TransportError => NoteError(uid, c.errThreshold, now, c.errCooldown)
    case Refused(HardCredit) => Cooldown(uid, now, c.hardCooldown, "余额不足")
    case Refused(SoftRate) => Cooldown(uid, now, c.softCooldown, "429 rate limit")
    case Refused(SessionDead) => Disable(uid, "session dead")
    case Refused(NotFound) => Cooldown(uid, now, c.softCooldown, "upstream 404")
    case Refused(OtherError) => NoteError(uid, c.errThreshold, now, c.errCooldown)
    case Success => NoteSuccess(uid)
  }

  /** One attempt: the pool when it was picked, when it was settled, and afterwards. */
  datatype Attempt = Attempt(uid: string, outcome: Outcome, pickedAt: int, settledAt: int,
                             atPick: Accounts, atSettle: Accounts, after: Accounts)

  datatype Reply = Served(uid: string) | Unavailable(last: Option<Outcome>)

  ghost function Tried(log: seq<Attempt>): set<string> {
    set i | 0 <= i < |log| :: log[i].uid
  }

  /** Every attempt was on a best untried account at its moment, and was settled as its outcome demands. */
  ghost predicate Legal(c: Config, log: seq<Attempt>) {
    forall i :: 0 <= i < |log| ==>
      && IsBest(log[i].atPick, Tried(log[..i]), log[i].pickedAt, log[i].uid)
      && log[i].after == Apply(log[i].atSettle, Settlement(c, log[i].uid, log[i].outcome, log[i].settledAt))
  }

  predicate AllFailed(log: seq<Attempt>) {
    forall i :: 0 <= i < |log| ==> !log[i].outcome.Success?
  }

  /** The pool after the attempts, when nothing else touches it. */
  function Final(m: Accounts, log: seq<Attempt>): Accounts {
    if log == [] then m else log[|log| - 1].after
  }

  /** What happens around a request: pool operations of everybody else before its k-th pool access, the time of that
      access, and what everybody else adds to the statistics before its k-th attempt is settled. */
  datatype Surroundings = Surroundings(others: nat -> seq<Op>, clock: nat -> int, recorded: nat -> seq<Stats.Event>)

  /** The attempts' snapshots are the true states of the pool. */
  ghost predicate Connected(m: Accounts, env: Surroundings, log: seq<Attempt>) {
    forall i :: 0 <= i < |log| ==> ConnectedAt(m, env, log, i)
  }

  ghost predicate ConnectedAt(m: Accounts, env: Surroundings, log: seq<Attempt>, i: nat)
    requires i < |log|
  {
    && log[i].pickedAt == env.clock(2 * i) && log[i].settledAt == env.clock(2 * i + 1)
    && log[i].atPick == PoolHistory.Run(Final(m, log[..i]), env.others(2 * i))
    && log[i].atSettle == PoolHistory.Run(log[i].atPick, env.others(2 * i + 1))
  }

  /** Nobody else touches the pool, and the clock stands still. */
  ghost predicate Quiet(env: Surroundings) {
    (forall k: nat :: env.others(k) == []) && (forall k: nat :: env.clock(k) == env.clock(0))
  }

  // ---- what is recorded -----------------------------------------------------

  /** Failed token refreshes are not counted; transport errors and refusals are. */
  predicate CountsAsFailure(o: Outcome) {
    o.TransportError? || o.Refused?
  }

  function FailureOf(o: Outcome, model: string, now: int): seq<Stats.Event> {
    if CountsAsFailure(o) then [Stats.Failure(model, now)] else []
  }

  /** What the attempts of one request add to the statistics. */
  function FailureEvents(log: seq<Attempt>, model: string): seq<Stats.Event>
  {
    if log == [] then []
    else
      var n := |log| - 1;
      FailureEvents(log[..n], model) + FailureOf(log[n].outcome, model, log[n].settledAt)
  }

  /** Everything recorded during the attempts, by the request and by everybody else. */
  function Recorded(env: Surroundings, log: seq<Attempt>, model: string): seq<Stats.Event>
  {
    if log == [] then []
    else
      var n := |log| - 1;
      Recorded(env, log[..n], model) + env.recorded(n) + FailureOf(log[n].outcome, model, log[n].settledAt)
  }

  method RecordAll(rec: Stats.Recorder, events: seq<Stats.Event>)
    requires rec.Valid()
    modifies rec, rec.byModel.Values
    ensures rec.Valid() && fresh(rec.byModel.Values - old(rec.byModel.Values))
    ensures rec.View() == StatsLaws.Run(old(rec.View()), events)
  {
    hide Stats.After;
    for i := 0 to |events|
      invariant rec.Valid() && fresh(rec.byModel.Values - old(rec.byModel.Values))
      invariant rec.View() == StatsLaws.Run(old(rec.View()), events[..i])
    {
      assert events[..i + 1][..i] == events[..i];
      match events[i]
      case Tokens(model, p, c, now) => rec.RecordTokens(model, p, c, now);
      case Failure(model, now) => rec.AddFailure(model, now);
    }
    assert events[..|events|] == events;
  }

  /** AddFailure, for the outcomes that count. */
  method CountFailure(rec: Stats.Recorder, outcome: Outcome, model: string, now: int)
    requires rec.Valid()
    modifies rec, rec.byModel.Values
    ensures rec.Valid() && fresh(rec.byModel.Values - old(rec.byModel.Values))
    ensures rec.View() == StatsLaws.Run(old(rec.View()), FailureOf(outcome, model, now))
  {
    hide Stats.After;
    if outcome.TransportError? || outcome.Refused? {
      rec.AddFailure(model, now);
      assert [Stats.Failure(model, now)][..0] == [];
    }
  }

  /** Statistics around the settling of an attempt: everybody else's, then its own. */
  method RecordAttempt(rec: Stats.Recorder, others: seq<Stats.Event>, outcome: Outcome, model: string, now: int)
    requires rec.Valid()
    modifies rec, rec.byModel.Values
    ensures rec.Valid() && fresh(rec.byModel.Values - old(rec.byModel.Values))
    ensures rec.View() == StatsLaws.Run(old(rec.View()), others + FailureOf(outcome, model, now))
  {
    hide StatsLaws.Run, FailureOf;
    RecordAll(rec, others);
    CountFailure(rec, outcome, model, now);
    StatsLaws.RunAppend(old(rec.View()), others, FailureOf(outcome, model, now));
  }

  lemma RecordedMore(env: Surroundings, log: seq<Attempt>, a: Attempt, model: string, s: Stats.State)
    ensures StatsLaws.Run(s, Recorded(env, log + [a], model))
         == StatsLaws.Run(StatsLaws.Run(s, Recorded(env, log, model)),
                          env.recorded(|log|) + FailureOf(a.outcome, model, a.settledAt))
  {
    hide StatsLaws.Run, FailureOf;
    var all, more := log + [a], env.recorded(|log|) + FailureOf(a.outcome, model, a.settledAt);
    assert all[..|log|] == log && all[|log|] == a;
    assert Recorded(env, all, model) == Recorded(env, log, model) + more;
    StatsLaws.RunAppend(s, Recorded(env, log, model), more);
  }

  // ---- the request --------------------------------------------------------

  method Perform(p: Pool, ops: seq<Op>)
    requires p.Valid()
    modifies p, p.byUID.Values
    ensures p.Valid() && fresh(p.byUID.Values - old(p.byUID.Values))
    ensures p.View().accounts == PoolHistory.Run(old(p.View().accounts), ops)
  {
    for i := 0 to |ops|
      invariant p.Valid() && fresh(p.byUID.Values - old(p.byUID.Values))
      invariant p.View().accounts == PoolHistory.Run(old(p.View().accounts), ops[..i])
    {
      assert ops[..i + 1][..i] == ops[..i];
      PerformOne(p, ops[i]);
    }
    assert ops[..|ops|] == ops;
  }

  method PerformOne(p: Pool, op: Op)
    requires p.Valid()
    modifies p, p.byUID.Values
    ensures p.Valid() && fresh(p.byUID.Values - old(p.byUID.Values))
    ensures p.View() == Step(old(p.View()), op)
  {
    hide Step;
    match op
    case Add(auth) => p.Add(auth);
    case SetCredits(uid, credits) => p.SetCredits(uid, credits);
    case Cooldown(uid, now, d, reason) => p.Cooldown(uid, d, reason, now);
    case Disable(uid, reason) => p.Disable(uid, reason);
    case Reenable(uid, remain) => p.ReenableIfCredits(uid, remain);
    case NoteError(uid, threshold, now, d) => p.NoteError(uid, threshold, d, now);
    case NoteSuccess(uid) => p.NoteSuccess(uid);
    case Enable(uid) => p.Enable(uid);
    case ForceCooldown(uid, reason, now, d) => p.ForceCooldown(uid, reason, d, now);
  }

  lemma {:induction false} RunKeepsKeys(m: Accounts, ops: seq<Op>)
    requires KeyedByUid(m)
    ensures KeyedByUid(PoolHistory.Run(m, ops))
  {
    if ops != [] {
      RunKeepsKeys(m, ops[..|ops| - 1]);
      ApplyKeepsKeys(PoolHistory.Run(m, ops[..|ops| - 1]), ops[|ops| - 1]);
    }
  }

  lemma LegalExtends(c: Config, env: Surroundings, before: Accounts, log: seq<Attempt>, a: Attempt)
    requires Legal(c, log) && Tries(c, env, before, Tried(log), |log|, a)
    ensures Legal(c, log + [a])
    ensures Tried(log + [a]) == Tried(log) + {a.uid}
  {
    hide IsBest, Settlement, Apply;
    var all := log + [a];
    assert forall i :: 0 <= i < |log| ==> all[i] == log[i] && all[..i] == log[..i];
    assert all[..|log|] == log;
    assert forall u :: u in Tried(all) ==> u in Tried(log) || u == a.uid;
    assert all[|log|].uid in Tried(all);
    forall u | u in Tried(log)
      ensures u in Tried(all)
    {
      var i :| 0 <= i < |log| && log[i].uid == u;
      assert all[i].uid == u;
    }
  }

  lemma ConnectedExtends(c: Config, env: Surroundings, m: Accounts, log: seq<Attempt>, a: Attempt)
    requires Connected(m, env, log) && Tries(c, env, Final(m, log), Tried(log), |log|, a)
    ensures Connected(m, env, log + [a])
    ensures Final(m, log + [a]) == a.after
  {
    var all := log + [a];
    assert all[..|log|] == log;
    forall i | 0 <= i < |log|
      ensures ConnectedAt(m, env, all, i)
    {
      assert all[i] == log[i] && all[..i] == log[..i];
      assert ConnectedAt(m, env, log, i);
    }
  }

  /** The switch at the end of an attempt. */
  method Settle(p: Pool, c: Config, uid: string, outcome: Outcome, now: int)
    requires p.Valid() && KeyedByUid(p.View().accounts)
    modifies p, p.byUID.Values
    ensures p.Valid() && fresh(p.byUID.Values - old(p.byUID.Values))
    ensures p.View().accounts == Apply(old(p.View().accounts), Settlement(c, uid, outcome, now))
    ensures KeyedByUid(p.View().accounts)
  {
    hide Apply;
    match outcome {
      case RefreshDead =>
        p.Disable(uid, "refresh session dead");
      case RefreshFailed(msg) =>
        p.Cooldown(uid, c.errCooldown, "refresh: " + msg, now);
      case TransportError =>
        p.NoteError(uid, c.errThreshold, c.errCooldown, now);
      case Refused(kind) =>
        match kind {
          case HardCredit => p.Cooldown(uid, c.hardCooldown, "余额不足", now);
          case SoftRate => p.Cooldown(uid, c.softCooldown, "429 rate limit", now);
          case SessionDead => p.Disable(uid, "session dead");
          case NotFound => p.Cooldown(uid, c.softCooldown, "upstream 404", now);
          case OtherError => p.NoteError(uid, c.errThreshold, c.errCooldown, now);
        }
      case Success =>
        p.NoteSuccess(uid);
    }
    ApplyKeepsKeys(old(p.View().accounts), Settlement(c, uid, outcome, now));
  }

  /** The i-th pass finds no account. */
  ghost predicate Ended(env: Surroundings, before: Accounts, tried: set<string>, i: nat, after: Accounts) {
    && after == PoolHistory.Run(before, env.others(2 * i))
    && Candidates(after, tried, env.clock(2 * i)) == {}
  }

  /** The i-th pass is this attempt: on a best untried account, settled by its outcome. */
  ghost predicate Tries(c: Config, env: Surroundings, before: Accounts, tried: set<string>, i: nat, a: Attempt) {
    && a.pickedAt == env.clock(2 * i) && a.settledAt == env.clock(2 * i + 1)
    && a.atPick == PoolHistory.Run(before, env.others(2 * i))
    && IsBest(a.atPick, tried, a.pickedAt, a.uid)
    && a.atSettle == PoolHistory.Run(a.atPick, env.others(2 * i + 1))
    && a.after == Apply(a.atSettle, Settlement(c, a.uid, a.outcome, a.settledAt))
  }

  /** The attempt ended as the upstream answered the account picked. */
  ghost predicate AskedAt(upstream: (nat, Auth) -> Outcome, k: nat, a: Attempt) {
    a.uid in a.atPick && a.outcome == upstream(k, a.atPick[a.uid].auth)
  }

  ghost predicate Asked(upstream: (nat, Auth) -> Outcome, log: seq<Attempt>) {
    forall k :: 0 <= k < |log| ==> AskedAt(upstream, k, log[k])
  }

  lemma AskedMore(upstream: (nat, Auth) -> Outcome, log: seq<Attempt>, a: Attempt)
    requires Asked(upstream, log) && AskedAt(upstream, |log|, a)
    ensures Asked(upstream, log + [a])
  {
    hide AskedAt;
  }

  lemma NobodyAsked(upstream: (nat, Auth) -> Outcome)
    ensures Asked(upstream, [])
  {
  }

  /** The pool's side of one pass of the loop: pick, try, settle. */
  method TryOne(p: Pool, c: Config, tried: set<string>, i: nat, env: Surroundings, upstream: (nat, Auth) -> Outcome)
    returns (acct: Option<Auth>, outcome: Outcome, ghost a: Attempt)
    requires p.Valid() && KeyedByUid(p.View().accounts)
    modifies p, p.byUID.Values
    ensures p.Valid() && fresh(p.byUID.Values - old(p.byUID.Values)) && KeyedByUid(p.View().accounts)
    ensures acct.None? ==> Ended(env, old(p.View().accounts), tried, i, p.View().accounts)
    ensures acct.Some? ==>
              && a.uid == acct.value.uid && a.outcome == outcome && a.settledAt == env.clock(2 * i + 1)
              && AskedAt(upstream, i, a)
              && Tries(c, env, old(p.View().accounts), tried, i, a) && p.View().accounts == a.after
  {
    hide Step, Apply, Settlement, KeyedByUid, Candidates, IsBest, PoolHistory.Run;
    RunKeepsKeys(p.View().accounts, env.others(2 * i));
    Perform(p, env.others(2 * i));
    acct := p.PickExcluding(tried, env.clock(2 * i));
    ghost var atPick := p.View().accounts;
    outcome := Success;
    a := Attempt("", Success, 0, 0, map[], map[], map[]);
    if acct.None? {
      return;
    }
    PickIsUntried(atPick, tried, env.clock(2 * i), acct.value);
    outcome := upstream(i, acct.value);
    RunKeepsKeys(atPick, env.others(2 * i + 1));
    Perform(p, env.others(2 * i + 1));
    ghost var atSettle := p.View().accounts;
    Settle(p, c, acct.value.uid, outcome, env.clock(2 * i + 1));
    a := Attempt(acct.value.uid, outcome, env.clock(2 * i), env.clock(2 * i + 1), atPick, atSettle, p.View().accounts);
  }

  /** One pass of the loop. */
  method TryAndRecord(p: Pool, rec: Stats.Recorder, c: Config, model: string, tried: set<string>, i: nat,
                      env: Surroundings, upstream: (nat, Auth) -> Outcome)
    returns (acct: Option<Auth>, outcome: Outcome, ghost a: Attempt)
    requires p.Valid() && KeyedByUid(p.View().accounts) && rec.Valid()
    modifies p, p.byUID.Values, rec, rec.byModel.Values
    ensures p.Valid() && fresh(p.byUID.Values - old(p.byUID.Values)) && KeyedByUid(p.View().accounts)
    ensures rec.Valid() && fresh(rec.byModel.Values - old(rec.byModel.Values))
    ensures acct.None? ==>
              && Ended(env, old(p.View().accounts), tried, i, p.View().accounts)
              && rec.View() == old(rec.View())
    ensures acct.Some? ==>
              && a.uid == acct.value.uid && a.outcome == outcome && a.settledAt == env.clock(2 * i + 1)
              && AskedAt(upstream, i, a)
              && Tries(c, env, old(p.View().accounts), tried, i, a) && p.View().accounts == a.after
              && rec.View() == StatsLaws.Run(old(rec.View()), env.recorded(i) + FailureOf(outcome, model, a.settledAt))
  {
    hide *;
    acct, outcome, a := TryOne(p, c, tried, i, env, upstream);
    if acct.Some? {
      RecordAttempt(rec, env.recorded(i), outcome, model, env.clock(2 * i + 1));
    }
  }

  /** How the reply and the pool left behind follow from the attempts. */
  ghost predicate Answers(c: Config, env: Surroundings, start: Accounts, log: seq<Attempt>, reply: Reply,
                          end: Accounts) {
    match reply
    case Served(uid) =>
      && log != [] && log[|log| - 1].uid == uid && log[|log| - 1].outcome.Success?
      && AllFailed(log[..|log| - 1])
      && end == Final(start, log)
    case Unavailable(last) =>
      && AllFailed(log)
      && last == LastOutcome(log)
      && (if |log| < c.maxRotate
          then Ended(env, Final(start, log), Tried(log), |log|, end)
          else end == Final(start, log))
  }

  function LastOutcome(log: seq<Attempt>): Option<Outcome> {
    if log == [] then None else Some(log[|log| - 1].outcome)
  }

  lemma SuccessAnswers(c: Config, env: Surroundings, start: Accounts, log: seq<Attempt>, a: Attempt)
    requires AllFailed(log) && a.outcome.Success?
    ensures Answers(c, env, start, log + [a], Served(a.uid), a.after)
  {
    assert (log + [a])[..|log|] == log;
  }

  lemma FailureContinues(log: seq<Attempt>, a: Attempt)
    requires AllFailed(log) && !a.outcome.Success?
    ensures AllFailed(log + [a]) && LastOutcome(log + [a]) == Some(a.outcome)
  {
  }

  /** What holds after each failed attempt of the loop. */
  ghost predicate SoFar(c: Config, env: Surroundings, model: string, start: Accounts, before: Stats.State,
                        log: seq<Attempt>, tried: set<string>, lastErr: Option<Outcome>, m: Accounts, s: Stats.State) {
    && Legal(c, log) && Connected(start, env, log) && AllFailed(log)
    && tried == Tried(log) && lastErr == LastOutcome(log)
    && m == Final(start, log) && s == StatsLaws.Run(before, Recorded(env, log, model))
  }

  lemma NothingTried(c: Config, env: Surroundings, model: string, start: Accounts, before: Stats.State)
    ensures SoFar(c, env, model, start, before, [], {}, None, start, before)
  {
    assert Tried([]) == {};
  }

  lemma OneMoreTried(c: Config, env: Surroundings, model: string, start: Accounts, before: Stats.State,
                     log: seq<Attempt>, tried: set<string>, lastErr: Option<Outcome>, m: Accounts, s: Stats.State,
                     a: Attempt, s': Stats.State)
    requires SoFar(c, env, model, start, before, log, tried, lastErr, m, s) && Tries(c, env, m, tried, |log|, a)
    requires s' == StatsLaws.Run(s, env.recorded(|log|) + FailureOf(a.outcome, model, a.settledAt))
    ensures !a.outcome.Success? ==>
              SoFar(c, env, model, start, before, log + [a], tried + {a.uid}, Some(a.outcome), a.after, s')
    ensures a.outcome.Success? ==>
              && Legal(c, log + [a]) && Connected(start, env, log + [a])
              && s' == StatsLaws.Run(before, Recorded(env, log + [a], model))
              && Answers(c, env, start, log + [a], Served(a.uid), a.after)
  {
    hide Legal, Connected, AllFailed, Tried, Final, Recorded, Tries, StatsLaws.Run, FailureOf, Answers, LastOutcome;
    LegalExtends(c, env, Final(start, log), log, a);
    ConnectedExtends(c, env, start, log, a);
    RecordedMore(env, log, a, model, before);
    if a.outcome.Success? {
      SuccessAnswers(c, env, start, log, a);
    } else {
      FailureContinues(log, a);
    }
  }

  lemma NobodyLeft(c: Config, env: Surroundings, model: string, start: Accounts, before: Stats.State,
                   log: seq<Attempt>, tried: set<string>, lastErr: Option<Outcome>, m: Accounts, s: Stats.State,
                   end: Accounts)
    requires SoFar(c, env, model, start, before, log, tried, lastErr, m, s)
    requires if |log| < c.maxRotate then Ended(env, m, tried, |log|, end) else end == m
    ensures Legal(c, log) && Connected(start, env, log) && s == StatsLaws.Run(before, Recorded(env, log, model))
    ensures Answers(c, env, start, log, Unavailable(lastErr), end)
  {
    hide Legal, Connected, AllFailed, Tried, Final, Recorded, Ended;
  }

  /** The rotation loop, whatever the upstream answers and whatever happens around it. */
  method Rotate(p: Pool, rec: Stats.Recorder, c: Config, model: string, env: Surroundings,
                upstream: (nat, Auth) -> Outcome)
    returns (reply: Reply, made: nat, ghost log: seq<Attempt>)
    requires p.Valid() && KeyedByUid(p.View().accounts) && rec.Valid()
    modifies p, p.byUID.Values, rec, rec.byModel.Values
    ensures p.Valid() && fresh(p.byUID.Values - old(p.byUID.Values)) && KeyedByUid(p.View().accounts)
    ensures rec.Valid() && fresh(rec.byModel.Values - old(rec.byModel.Values))
    ensures rec.View() == StatsLaws.Run(old(rec.View()), Recorded(env, log, model))
    ensures Legal(c, log) && Connected(old(p.View().accounts), env, log) && Asked(upstream, log)
    ensures made == |log| <= if c.maxRotate < 0 then 0 else c.maxRotate
    ensures Answers(c, env, old(p.View().accounts), log, reply, p.View().accounts)
  {
    hide *;
    ghost var start, before := p.View().accounts, rec.View();
    log := [];
    var tried: set<string> := {};
    var lastErr := None;
    var i := 0;
    NothingTried(c, env, model, start, before);
    NobodyAsked(upstream);
    while i < c.maxRotate
      invariant 0 <= i && (i <= c.maxRotate || i == 0) && |log| == i
      invariant p.Valid() && fresh(p.byUID.Values - old(p.byUID.Values)) && KeyedByUid(p.View().accounts)
      invariant rec.Valid() && fresh(rec.byModel.Values - old(rec.byModel.Values))
      invariant SoFar(c, env, model, start, before, log, tried, lastErr, p.View().accounts, rec.View())
      invariant Asked(upstream, log)
    {
      ghost var m, s := p.View().accounts, rec.View();
      ghost var a;
      var acct, outcome;
      acct, outcome, a := TryAndRecord(p, rec, c, model, tried, i, env, upstream);
      if acct.None? {
        NobodyLeft(c, env, model, start, before, log, tried, lastErr, m, s, p.View().accounts);
        return Unavailable(lastErr), i, log;
      }
      OneMoreTried(c, env, model, start, before, log, tried, lastErr, m, s, a, rec.View());
      AskedMore(upstream, log, a);
      tried := tried + {acct.value.uid};
      log := log + [a];
      if outcome.Success? {
        return Served(acct.value.uid), i + 1, log;
      }
      lastErr := Some(outcome);
      i := i + 1;
    }
    NobodyLeft(c, env, model, start, before, log, tried, lastErr, p.View().accounts, rec.View(), p.View().accounts);
    return Unavailable(lastErr), i, log;
  }
}
