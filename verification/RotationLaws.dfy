/** Laws of the rotation: which accounts a request uses, and how many failures the pool can absorb. */
module RotationLaws {
  import opened MapSums
  import opened Sets
  import opened Options
  import opened AccountPool
  import opened Rotation
  import PoolHistory

  // ---- what an attempt leaves of its account -------------------------------------

  /** The account as it is at any time t after an attempt was settled at `now`, for each way the attempt can end;
      nothing is assumed of the account, which others may have changed since it was picked. */
  lemma SettledAccount(c: Config, m: Accounts, uid: string, o: Outcome, now: int, t: int)
    requires uid in m && t >= 0
    ensures var after := Apply(m, Settlement(c, uid, o, now));
            && uid in after
            && var ready, on := uid in Candidates(after, {}, t), !m[uid].disabled;
               var was, count, errors := uid in Candidates(m, {}, t), m[uid].errCount, after[uid].errCount;
            && after[uid].auth == m[uid].auth && after[uid].credits == m[uid].credits
            && (after[uid].disabled <==> m[uid].disabled || o.RefreshDead? || o == Refused(SessionDead))
            && after[uid].reason == ReasonLeft(c, o, m[uid])
            && match o
               case Refused(HardCredit) => (ready <==> on && t >= now + c.hardCooldown) && errors == 0
               case Refused(SoftRate) => (ready <==> on && t >= now + c.softCooldown) && errors == 0
               case Refused(NotFound) => (ready <==> on && t >= now + c.softCooldown) && errors == 0
               case RefreshFailed(_) => (ready <==> on && t >= now + c.errCooldown) && errors == 0
               case RefreshDead => !ready && errors == count
               case Refused(SessionDead) => !ready && errors == count
               case TransportError => Worn(c, on, was, count, ready, errors, now, t)
               case Refused(OtherError) => Worn(c, on, was, count, ready, errors, now, t)
               case Success => ready == was && errors == 0
  {
  }

  /** The reason an attempt leaves on its account. */
  function ReasonLeft(c: Config, o: Outcome, before: Account): string {
    var worn := if before.errCount + 1 < c.errThreshold then before.reason else "consecutive errors";
    match o
    case Refused(HardCredit) => "余额不足"
    case Refused(SoftRate) => "429 rate limit"
    case Refused(NotFound) => "upstream 404"
    case RefreshFailed(msg) => "refresh: " + msg
    case RefreshDead => "refresh session dead"
    case Refused(SessionDead) => "session dead"
    case TransportError => worn
    case Refused(OtherError) => worn
    case Success => before.reason
  }

  /** One more error: the threshold-th starts a cooldown and a new count, any other leaves health as it was. */
  predicate Worn(c: Config, on: bool, was: bool, count: nat, ready: bool, errors: nat, now: int, t: int) {
    if count + 1 < c.errThreshold then ready == was && errors == count + 1
    else (ready <==> on && t >= now + c.errCooldown) && errors == 0
  }

  // ---- any request, whatever happens around it ---------------------------------

  lemma TriedGrows(log: seq<Attempt>, i: nat, j: nat)
    requires i < j <= |log|
    ensures log[i].uid in Tried(log[..j])
  {
    assert log[..j][i] == log[i];
  }

  /** No account is attempted twice. */
  lemma AttemptsAreDistinct(c: Config, log: seq<Attempt>)
    requires Legal(c, log)
    ensures forall i, j :: 0 <= i < j < |log| ==> log[i].uid != log[j].uid
    ensures |Tried(log)| == |log|
  {
    forall i, j | 0 <= i < j < |log|
      ensures log[i].uid != log[j].uid
    {
      TriedGrows(log, i, j);
      assert IsBest(log[j].atPick, Tried(log[..j]), log[j].pickedAt, log[j].uid);
    }
    DistinctCount(log);
  }

  lemma {:induction false} DistinctCount(log: seq<Attempt>)
    requires forall i, j :: 0 <= i < j < |log| ==> log[i].uid != log[j].uid
    ensures |Tried(log)| == |log|
  {
    if log == [] {
      assert Tried(log) == {};
    } else {
      var init, last := log[..|log| - 1], log[|log| - 1];
      DistinctCount(init);
      TriedOfMore(init, last);
      assert init + [last] == log;
      assert last.uid !in Tried(init);
    }
  }

  lemma TriedOfMore(log: seq<Attempt>, a: Attempt)
    ensures Tried(log + [a]) == Tried(log) + {a.uid}
  {
    var all := log + [a];
    assert forall i :: 0 <= i < |log| ==> all[i] == log[i];
    assert forall i :: 0 <= i < |log| ==> all[i].uid in Tried(all);
    assert all[|log|].uid in Tried(all);
  }

  function CreditsOf(m: Accounts, uid: string): int {
    if uid in m then m[uid].credits else 0
  }

  // ---- a request on a quiet pool with a standing clock ------------------------------

  /** The attempts form one chain of pool states, all at the same time. */
  ghost predicate Still(c: Config, m: Accounts, now: int, log: seq<Attempt>) {
    Legal(c, log) && forall i :: 0 <= i < |log| ==>
      && log[i].pickedAt == log[i].settledAt == now
      && log[i].atPick == log[i].atSettle == Final(m, log[..i])
  }

  lemma QuietIsStill(c: Config, m: Accounts, env: Surroundings, log: seq<Attempt>)
    requires Legal(c, log) && Connected(m, env, log) && Quiet(env)
    ensures Still(c, m, env.clock(0), log)
  {
    forall i | 0 <= i < |log|
      ensures log[i].pickedAt == log[i].settledAt == env.clock(0)
      ensures log[i].atPick == log[i].atSettle == Final(m, log[..i])
    {
      assert ConnectedAt(m, env, log, i);
    }
  }

  lemma StillPrefix(c: Config, m: Accounts, now: int, log: seq<Attempt>, n: nat)
    requires Still(c, m, now, log) && n <= |log|
    ensures Still(c, m, now, log[..n])
  {
    hide IsBest, Settlement, Apply;
    assert forall i :: 0 <= i < n ==> log[..n][i] == log[i] && log[..n][..i] == log[..i];
  }

  lemma LastStep(c: Config, m: Accounts, now: int, log: seq<Attempt>)
    requires Still(c, m, now, log) && log != []
    ensures var a, before := log[|log| - 1], log[..|log| - 1];
            && Final(m, log) == Apply(Final(m, before), Settlement(c, a.uid, a.outcome, now))
            && IsBest(Final(m, before), Tried(before), now, a.uid)
            && Tried(log) == Tried(before) + {a.uid}
            && Still(c, m, now, before)
  {
    hide IsBest, Settlement, Apply;
    var n := |log| - 1;
    StillPrefix(c, m, now, log, n);
    assert log == log[..n] + [log[n]];
    TriedOfMore(log[..n], log[n]);
  }

  lemma SettlementTarget(c: Config, uid: string, o: Outcome, now: int)
    ensures Target(Settlement(c, uid, o, now)) == uid && !Settlement(c, uid, o, now).Add?
  {
  }

  /** Accounts the request did not attempt are left exactly as they were. */
  lemma {:induction false} OthersUntouched(c: Config, m: Accounts, now: int, log: seq<Attempt>, u: string)
    requires Still(c, m, now, log) && u !in Tried(log)
    ensures u in Final(m, log) <==> u in m
    ensures u in m ==> Final(m, log)[u] == m[u]
  {
    if log != [] {
      hide Still, Settlement, Effect, IsBest, Tried;
      LastStep(c, m, now, log);
      SettlementTarget(c, log[|log| - 1].uid, log[|log| - 1].outcome, now);
      OthersUntouched(c, m, now, log[..|log| - 1], u);
    }
  }

  /** At its turn, an attempted account is at least as rich as every healthy account not yet attempted. */
  lemma RichestFirst(c: Config, m: Accounts, now: int, log: seq<Attempt>, i: nat, u: string)
    requires Still(c, m, now, log) && i < |log|
    requires u in Candidates(m, {}, now) && u !in Tried(log[..i])
    ensures log[i].uid in Candidates(m, {}, now)
    ensures CreditsOf(m, u) <= CreditsOf(m, log[i].uid)
  {
    StillPrefix(c, m, now, log, i);
    OthersUntouched(c, m, now, log[..i], u);
    assert IsBest(log[i].atPick, Tried(log[..i]), now, log[i].uid);
    OthersUntouched(c, m, now, log[..i], log[i].uid);
    assert u in Candidates(log[i].atPick, Tried(log[..i]), now);
  }

  lemma AttemptedWasHealthy(c: Config, m: Accounts, now: int, log: seq<Attempt>, i: nat)
    requires Still(c, m, now, log) && i < |log|
    ensures log[i].uid in Candidates(m, {}, now)
  {
    StillPrefix(c, m, now, log, i);
    assert IsBest(log[i].atPick, Tried(log[..i]), now, log[i].uid);
    OthersUntouched(c, m, now, log[..i], log[i].uid);
  }

  /** The attempts are the richest initially healthy accounts, in order of credits. */
  lemma AttemptsAreTopAccounts(c: Config, m: Accounts, now: int, log: seq<Attempt>)
    requires Still(c, m, now, log)
    ensures Tried(log) <= Candidates(m, {}, now)
    ensures forall i, j :: 0 <= i < j < |log| ==> CreditsOf(m, log[i].uid) >= CreditsOf(m, log[j].uid)
    ensures forall u, i :: u in Candidates(m, {}, now) - Tried(log) && 0 <= i < |log| ==>
              CreditsOf(m, u) <= CreditsOf(m, log[i].uid)
  {
    forall i | 0 <= i < |log|
      ensures log[i].uid in Candidates(m, {}, now)
    {
      AttemptedWasHealthy(c, m, now, log, i);
    }
    AttemptsAreDistinct(c, log);
    forall i, j | 0 <= i < j < |log|
      ensures CreditsOf(m, log[i].uid) >= CreditsOf(m, log[j].uid)
    {
      RichestFirst(c, m, now, log, i, log[j].uid);
    }
    forall u, i | u in Candidates(m, {}, now) - Tried(log) && 0 <= i < |log|
      ensures CreditsOf(m, u) <= CreditsOf(m, log[i].uid)
    {
      assert u !in Tried(log[..i]);
      RichestFirst(c, m, now, log, i, u);
    }
  }

  function Min(a: int, b: int): int { if a < b then a else b }

  /** A request that fails on every account it tries makes exactly min(maxRotate, healthy accounts) attempts. */
  lemma FailedRequestLength(c: Config, m: Accounts, now: int, log: seq<Attempt>)
    requires Sound(c) && Still(c, m, now, log) && |log| <= c.maxRotate
    requires |log| < c.maxRotate ==> Candidates(Final(m, log), Tried(log), now) == {}
    ensures |log| == Min(c.maxRotate, |Candidates(m, {}, now)|)
  {
    var h := Candidates(m, {}, now);
    AttemptsAreTopAccounts(c, m, now, log);
    AttemptsAreDistinct(c, log);
    SubsetSize(Tried(log), h);
    forall u | u in h - Tried(log)
      ensures u in Candidates(Final(m, log), Tried(log), now)
    {
      OthersUntouched(c, m, now, log, u);
    }
    if |log| < c.maxRotate {
      assert h - Tried(log) == {};
      assert Tried(log) == h;
    }
  }

  /** What ChatCompletions promises, on a quiet pool, for a request that is not served. */
  lemma UnservedRequest(c: Config, env: Surroundings, m: Accounts, log: seq<Attempt>, reply: Reply, end: Accounts)
    requires Sound(c) && Legal(c, log) && Connected(m, env, log) && Quiet(env) && |log| <= c.maxRotate
    requires Answers(c, env, m, log, reply, end) && reply.Unavailable?
    ensures |log| == Min(c.maxRotate, |Candidates(m, {}, env.clock(0))|)
    ensures reply.last == if log == [] then None else Some(log[|log| - 1].outcome)
    ensures forall u :: u in m && u !in Tried(log) ==> u in end && end[u] == m[u]
  {
    var now := env.clock(0);
    QuietIsStill(c, m, env, log);
    assert end == Final(m, log);
    FailedRequestLength(c, m, now, log);
    forall u | u in m && u !in Tried(log)
      ensures u in end && end[u] == m[u]
    {
      OthersUntouched(c, m, now, log, u);
    }
  }

  // ---- how many failures a pool absorbs ---------------------------------------------

  /** Error counts stay below the threshold. */
  ghost predicate Bounded(m: Accounts, threshold: int) {
    forall k :: k in m ==> m[k].errCount < PoolHistory.Limit(threshold)
  }

  lemma ApplyKeepsBounded(m: Accounts, op: Op, threshold: int)
    requires Bounded(m, threshold)
    requires op.NoteError? ==> op.threshold == threshold
    ensures Bounded(Apply(m, op), threshold)
  {
  }

  /** Every pool that started from fresh or restored accounts is bounded. */
  lemma {:induction false} RunKeepsBounded(m: Accounts, ops: seq<Op>, threshold: int)
    requires Bounded(m, threshold)
    requires forall op :: op in ops && op.NoteError? ==> op.threshold == threshold
    ensures Bounded(PoolHistory.Run(m, ops), threshold)
  {
    if ops != [] {
      var init := ops[..|ops| - 1];
      RunKeepsBounded(m, init, threshold);
      ApplyKeepsBounded(PoolHistory.Run(m, init), ops[|ops| - 1], threshold);
    }
  }

  /** The failures a healthy account can still take; an unhealthy account is not tried. */
  function Patience(threshold: int, now: int): Account -> int {
    (a: Account) => if Healthy(a, now) && a.errCount < threshold then threshold - a.errCount else 0
  }

  ghost function Potential(m: Accounts, threshold: int, now: int): int {
    Sum(m, Patience(threshold, now))
  }

  lemma PotentialBound(m: Accounts, threshold: int, now: int)
    requires threshold >= 1
    ensures 0 <= Potential(m, threshold, now) <= threshold * |Candidates(m, {}, now)|
  {
    var f := Patience(threshold, now);
    SumBound(m, f, threshold);
    SubsetSize(Support(m, f), Candidates(m, {}, now));
    MulMonotone(threshold, |Support(m, f)|, |Candidates(m, {}, now)|);
  }

  lemma MulMonotone(t: nat, a: nat, b: nat)
    requires a <= b
    ensures t * a <= t * b
  {
  }

  /** Whatever way an attempt on a healthy account fails, the account can take fewer failures afterwards. */
  lemma FailureCosts(c: Config, a: Account, uid: string, o: Outcome, now: int)
    requires Sound(c) && now >= 0 && !o.Success?
    requires Healthy(a, now) && a.errCount < c.errThreshold
    ensures var f := Patience(c.errThreshold, now);
            f(Effect(a, Settlement(c, uid, o, now))) < f(a)
  {
  }

  lemma AttemptCosts(c: Config, m: Accounts, uid: string, o: Outcome, now: int)
    requires Sound(c) && now >= 0 && !o.Success?
    requires uid in Candidates(m, {}, now) && Bounded(m, c.errThreshold)
    ensures var m' := Apply(m, Settlement(c, uid, o, now));
            Potential(m', c.errThreshold, now) < Potential(m, c.errThreshold, now) && Bounded(m', c.errThreshold)
  {
    var op := Settlement(c, uid, o, now);
    FailureCosts(c, m[uid], uid, o, now);
    SumUpdate(m, Patience(c.errThreshold, now), uid, Effect(m[uid], op));
    ApplyKeepsBounded(m, op, c.errThreshold);
  }

  /** Every attempt of a failing request costs potential. */
  lemma {:induction false} FailingRequestCosts(c: Config, m: Accounts, now: int, log: seq<Attempt>)
    requires Sound(c) && now >= 0 && Bounded(m, c.errThreshold)
    requires Still(c, m, now, log) && AllFailed(log)
    ensures Bounded(Final(m, log), c.errThreshold)
    ensures Potential(Final(m, log), c.errThreshold, now) + |log| <= Potential(m, c.errThreshold, now)
  {
    if log != [] {
      var n := |log| - 1;
      StillPrefix(c, m, now, log, n);
      FailingRequestCosts(c, m, now, log[..n]);
      assert IsBest(log[n].atPick, Tried(log[..n]), now, log[n].uid);
      AttemptCosts(c, log[n].atPick, log[n].uid, log[n].outcome, now);
    }
  }

  /** Requests one after the other, each failing on everything it tries. */
  ghost predicate Storm(c: Config, m: Accounts, now: int, logs: seq<seq<Attempt>>)
  {
    logs == [] ||
    (Storm(c, m, now, logs[..|logs| - 1]) && AllFailed(logs[|logs| - 1]) &&
     Still(c, AfterStorm(m, logs[..|logs| - 1]), now, logs[|logs| - 1]))
  }

  function AfterStorm(m: Accounts, logs: seq<seq<Attempt>>): Accounts
  {
    if logs == [] then m else Final(AfterStorm(m, logs[..|logs| - 1]), logs[|logs| - 1])
  }

  function Attempts(logs: seq<seq<Attempt>>): nat
  {
    if logs == [] then 0 else Attempts(logs[..|logs| - 1]) + |logs[|logs| - 1]|
  }

  lemma {:induction false} StormCosts(c: Config, m: Accounts, now: int, logs: seq<seq<Attempt>>)
    requires Sound(c) && now >= 0 && Bounded(m, c.errThreshold) && Storm(c, m, now, logs)
    ensures Bounded(AfterStorm(m, logs), c.errThreshold)
    ensures Potential(AfterStorm(m, logs), c.errThreshold, now) + Attempts(logs) <= Potential(m, c.errThreshold, now)
  {
    if logs != [] {
      var init, last := logs[..|logs| - 1], logs[|logs| - 1];
      StormCosts(c, m, now, init);
      FailingRequestCosts(c, AfterStorm(m, init), now, last);
    }
  }

  /** However many requests fail in a row, at most threshold attempts are made per initially healthy account. */
  lemma StormIsBounded(c: Config, m: Accounts, now: int, logs: seq<seq<Attempt>>)
    requires Sound(c) && now >= 0 && Bounded(m, c.errThreshold) && Storm(c, m, now, logs)
    ensures Attempts(logs) <= c.errThreshold * |Candidates(m, {}, now)|
  {
    StormCosts(c, m, now, logs);
    PotentialBound(m, c.errThreshold, now);
    PotentialBound(AfterStorm(m, logs), c.errThreshold, now);
  }

  /** The request gave up only at its limit or without accounts left. */
  ghost predicate Exhaustive(c: Config, m: Accounts, now: int, log: seq<Attempt>) {
    |log| <= c.maxRotate && (|log| < c.maxRotate ==> Candidates(Final(m, log), Tried(log), now) == {})
  }

  /** Every request of the storm gave up only then. */
  ghost predicate ExhaustiveStorm(c: Config, m: Accounts, now: int, logs: seq<seq<Attempt>>) {
    forall i :: 0 <= i < |logs| ==> Exhaustive(c, AfterStorm(m, logs[..i]), now, logs[i])
  }

  /** Failing requests make no account healthy. */
  lemma CandidatesShrink(c: Config, m: Accounts, now: int, log: seq<Attempt>)
    requires Still(c, m, now, log)
    ensures Candidates(Final(m, log), {}, now) <= Candidates(m, {}, now)
  {
    AttemptsAreTopAccounts(c, m, now, log);
    forall u | u in Candidates(Final(m, log), {}, now)
      ensures u in Candidates(m, {}, now)
    {
      if u !in Tried(log) {
        OthersUntouched(c, m, now, log, u);
      }
    }
  }

  /** While accounts stay healthy, every request of a storm attempts something. */
  lemma {:induction false} StormAttempts(c: Config, m: Accounts, now: int, logs: seq<seq<Attempt>>)
    requires Sound(c) && Storm(c, m, now, logs) && ExhaustiveStorm(c, m, now, logs)
    requires Candidates(AfterStorm(m, logs), {}, now) != {}
    ensures Attempts(logs) >= |logs|
  {
    if logs != [] {
      var n := |logs| - 1;
      var init, last := logs[..n], logs[n];
      CandidatesShrink(c, AfterStorm(m, init), now, last);
      assert Exhaustive(c, AfterStorm(m, init), now, last);
      FailedRequestLength(c, AfterStorm(m, init), now, last);
      hide Still, Exhaustive, Candidates;
      SomeLeft(Candidates(AfterStorm(m, logs), {}, now), Candidates(AfterStorm(m, init), {}, now));
      ExhaustivePrefix(c, m, now, logs, n);
      StormAttempts(c, m, now, init);
    }
  }

  lemma SomeLeft(a: set<string>, b: set<string>)
    requires a <= b && a != {}
    ensures b != {} && |b| > 0
  {
    var x :| x in a;
    assert x in b;
  }

  lemma ExhaustivePrefix(c: Config, m: Accounts, now: int, logs: seq<seq<Attempt>>, n: nat)
    requires ExhaustiveStorm(c, m, now, logs) && n <= |logs|
    ensures ExhaustiveStorm(c, m, now, logs[..n])
  {
    hide Exhaustive;
    assert forall i :: 0 <= i < n ==> logs[..n][i] == logs[i] && logs[..n][..i] == logs[..i];
  }

  /** After more failing requests than threshold errors per initially healthy account, nobody is left to ask: the next
      pick returns nothing. */
  lemma StormEndsInRefusal(c: Config, m: Accounts, now: int, logs: seq<seq<Attempt>>, tried: set<string>)
    requires Sound(c) && now >= 0 && Bounded(m, c.errThreshold)
    requires Storm(c, m, now, logs) && ExhaustiveStorm(c, m, now, logs)
    requires |logs| > c.errThreshold * |Candidates(m, {}, now)|
    ensures Candidates(AfterStorm(m, logs), {}, now) == {}
    ensures forall r :: IsPick(AfterStorm(m, logs), tried, now, r) <==> r == None
  {
    StormIsBounded(c, m, now, logs);
    if Candidates(AfterStorm(m, logs), {}, now) != {} {
      StormAttempts(c, m, now, logs);
    }
    assert Candidates(AfterStorm(m, logs), tried, now) <= Candidates(AfterStorm(m, logs), {}, now);
    hide Candidates, Storm, ExhaustiveStorm, Bounded;
  }
}
