/** What the pool's counters and flags mean in terms of the operations that led to them. */
module PoolHistory {
  import opened AccountPool
  import opened Arith

  function Run(m: Accounts, ops: seq<Op>): Accounts
  {
    if ops == [] then m else Apply(Run(m, ops[..|ops| - 1]), ops[|ops| - 1])
  }

  // ---- the history, read off the operations alone -----------------------------

  predicate IsError(op: Op, uid: string) {
    op.NoteError? && op.uid == uid
  }

  /** Whether the last Disable or Enable of the account was a Disable. */
  predicate DisabledBy(initially: bool, ops: seq<Op>, uid: string)
  {
    if ops == [] then initially
    else
      var last := ops[|ops| - 1];
      if last.Disable? && last.uid == uid then true
      else if last.Enable? && last.uid == uid then false
      else DisabledBy(initially, ops[..|ops| - 1], uid)
  }

  /** Whether the i-th operation forgives the account's earlier errors. */
  predicate Forgives(initially: bool, ops: seq<Op>, uid: string, i: nat)
    requires i < |ops|
  {
    Target(ops[i]) == uid &&
    match ops[i]
    case NoteSuccess(_) => true
    case Cooldown(_, _, _, _) => true
    case ForceCooldown(_, _, _, _) => true
    case Enable(_) => true
    case Reenable(_, remain) => remain > 0 && !DisabledBy(initially, ops[..i], uid)
    case _ => false
  }

  /** The errors noted since the last forgiving operation. */
  ghost function Streak(initially: bool, ops: seq<Op>, uid: string): set<nat> {
    set i: nat | i < |ops| && IsError(ops[i], uid) &&
                 forall j :: i < j < |ops| ==> !Forgives(initially, ops, uid, j)
  }

  ghost predicate SameThreshold(ops: seq<Op>, uid: string, threshold: int) {
    forall op :: op in ops && IsError(op, uid) ==> op.threshold == threshold
  }

  lemma ForgivesPrefix(initially: bool, ops: seq<Op>, uid: string, op: Op, i: nat)
    requires i < |ops|
    ensures Forgives(initially, ops + [op], uid, i) == Forgives(initially, ops, uid, i)
  {
    assert (ops + [op])[..i] == ops[..i];
  }

  /** How one more operation changes the streak. */
  lemma StreakStep(initially: bool, ops: seq<Op>, uid: string, op: Op)
    ensures var n := |ops|;
            Streak(initially, ops + [op], uid) ==
              if Forgives(initially, ops + [op], uid, n) then {}
              else Streak(initially, ops, uid) + if IsError(op, uid) then {n} else {}
  {
    var all, n := ops + [op], |ops|;
    forall i: nat | i < n
      ensures all[i] == ops[i] && Forgives(initially, all, uid, i) == Forgives(initially, ops, uid, i)
    {
      ForgivesPrefix(initially, ops, uid, op, i);
    }
    if Forgives(initially, all, uid, n) {
      assert Streak(initially, all, uid) == {};
    } else {
      assert forall i: nat :: i < n ==> (i in Streak(initially, all, uid) <==> i in Streak(initially, ops, uid));
      assert n in Streak(initially, all, uid) <==> IsError(op, uid);
    }
  }

  /** A threshold below one behaves as one: every error trips. */
  function Limit(threshold: int): nat {
    if threshold < 1 then 1 else threshold
  }

  lemma {:induction false} DisabledIsLastSwitch(m: Accounts, ops: seq<Op>, uid: string)
    requires uid in m
    ensures uid in Run(m, ops)
    ensures Run(m, ops)[uid].disabled == DisabledBy(m[uid].disabled, ops, uid)
  {
    if ops != [] {
      DisabledIsLastSwitch(m, ops[..|ops| - 1], uid);
    }
  }

  /** After any run, errCount is the length of the error streak, modulo the threshold. */
  lemma {:induction false} ErrCountIsStreak(m: Accounts, ops: seq<Op>, uid: string, threshold: int)
    requires uid in m && m[uid].errCount == 0
    requires SameThreshold(ops, uid, threshold)
    ensures uid in Run(m, ops)
    ensures Run(m, ops)[uid].errCount == |Streak(m[uid].disabled, ops, uid)| % Limit(threshold)
  {
    var d := m[uid].disabled;
    if ops == [] {
      assert Streak(d, ops, uid) == {};
    } else {
      var init, op := ops[..|ops| - 1], ops[|ops| - 1];
      ErrCountIsStreak(m, init, uid, threshold);
      DisabledIsLastSwitch(m, init, uid);
      assert init + [op] == ops;
      OneMore(d, init, uid, op, Run(m, init), threshold);
    }
  }

  lemma StreakIsPast(d: bool, ops: seq<Op>, uid: string)
    ensures |ops| !in Streak(d, ops, uid)
  {
  }

  /** How one more operation changes the length of the streak. */
  lemma StreakLength(d: bool, ops: seq<Op>, uid: string, op: Op)
    ensures |Streak(d, ops + [op], uid)| ==
              if Forgives(d, ops + [op], uid, |ops|) then 0
              else |Streak(d, ops, uid)| + if IsError(op, uid) then 1 else 0
  {
    StreakStep(d, ops, uid, op);
    StreakIsPast(d, ops, uid);
    hide Streak, Forgives;
  }

  /** Whether an operation forgives, read off the account it is applied to. */
  predicate ForgivesNow(op: Op, uid: string, disabled: bool) {
    Target(op) == uid &&
    (op.NoteSuccess? || op.Cooldown? || op.ForceCooldown? || op.Enable? || (op.Reenable? && op.remain > 0 && !disabled))
  }

  lemma ForgivesByState(d: bool, ops: seq<Op>, uid: string, op: Op)
    ensures Forgives(d, ops + [op], uid, |ops|) == ForgivesNow(op, uid, DisabledBy(d, ops, uid))
  {
    assert (ops + [op])[..|ops|] == ops && (ops + [op])[|ops|] == op;
    hide DisabledBy;
  }

  lemma ErrCountStep(m: Accounts, op: Op, uid: string, threshold: int, n: nat)
    requires uid in m && m[uid].errCount == n % Limit(threshold)
    requires IsError(op, uid) ==> op.threshold == threshold
    ensures uid in Apply(m, op)
    ensures Apply(m, op)[uid].errCount ==
              (if ForgivesNow(op, uid, m[uid].disabled) then 0 else n + if IsError(op, uid) then 1 else 0)
              % Limit(threshold)
  {
    ModSucc(n, Limit(threshold));
    ModIs(0, Limit(threshold), 0, 0);
  }

  lemma OneMore(d: bool, init: seq<Op>, uid: string, op: Op, m: Accounts, threshold: int)
    requires uid in m && m[uid].errCount == |Streak(d, init, uid)| % Limit(threshold)
    requires m[uid].disabled == DisabledBy(d, init, uid)
    requires IsError(op, uid) ==> op.threshold == threshold
    ensures uid in Apply(m, op)
    ensures Apply(m, op)[uid].errCount == |Streak(d, init + [op], uid)| % Limit(threshold)
  {
    hide *;
    StreakLength(d, init, uid, op);
    ForgivesByState(d, init, uid, op);
    ErrCountStep(m, op, uid, threshold, |Streak(d, init, uid)|);
  }

  /** One more error extends the streak by one. */
  lemma ErrorExtendsStreak(d: bool, ops: seq<Op>, uid: string, op: Op)
    requires IsError(op, uid)
    ensures |Streak(d, ops + [op], uid)| == |Streak(d, ops, uid)| + 1
  {
    StreakLength(d, ops, uid, op);
    ForgivesByState(d, ops, uid, op);
    hide Streak, DisabledBy;
  }

  lemma RunMore(m: Accounts, ops: seq<Op>, op: Op)
    ensures Run(m, ops + [op]) == Apply(Run(m, ops), op)
  {
    assert (ops + [op])[..|ops|] == ops;
  }

  /** An error on an account with this many errors already. */
  lemma ErrorEffect(m: Accounts, uid: string, threshold: int, now: int, d: int, n: nat)
    requires uid in m && m[uid].errCount == n % Limit(threshold)
    ensures var after := Apply(m, NoteError(uid, threshold, now, d));
            && uid in after
            && after[uid] == if (n + 1) % Limit(threshold) == 0
                             then m[uid].(until := now + d, reason := "consecutive errors", errCount := 0)
                             else m[uid].(errCount := (n + 1) % Limit(threshold))
  {
    ModSucc(n, Limit(threshold));
  }

  /** A cooldown starts by errors exactly at every threshold-th error of a streak; other errors leave it alone. */
  lemma TripsExactlyAtThreshold(m: Accounts, ops: seq<Op>, uid: string, threshold: int, now: int, d: int)
    requires uid in m && m[uid].errCount == 0
    requires SameThreshold(ops, uid, threshold)
    ensures uid in Run(m, ops) && uid in Run(m, ops + [NoteError(uid, threshold, now, d)])
    ensures var all := ops + [NoteError(uid, threshold, now, d)];
            var before, after, n := Run(m, ops)[uid], Run(m, all)[uid], |Streak(m[uid].disabled, all, uid)|;
            && n == |Streak(m[uid].disabled, ops, uid)| + 1
            && after == if n % Limit(threshold) == 0
                        then before.(until := now + d, reason := "consecutive errors", errCount := 0)
                        else before.(errCount := n % Limit(threshold))
  {
    hide *;
    var op := NoteError(uid, threshold, now, d);
    ErrCountIsStreak(m, ops, uid, threshold);
    RunMore(m, ops, op);
    assert IsError(op, uid) by { ErrorIsError(uid, threshold, now, d); }
    ErrorExtendsStreak(m[uid].disabled, ops, uid, op);
    ErrorEffect(Run(m, ops), uid, threshold, now, d, |Streak(m[uid].disabled, ops, uid)|);
  }

  lemma ErrorIsError(uid: string, threshold: int, now: int, d: int)
    ensures IsError(NoteError(uid, threshold, now, d), uid)
  {
  }

  // ---- cooldowns, balance and reason, read off the operations alone -----------------

  /** Whether the i-th operation is an error that completes a threshold's worth of its streak. */
  ghost predicate Trips(initially: bool, ops: seq<Op>, uid: string, threshold: int, i: nat)
    requires i < |ops|
  {
    IsError(ops[i], uid) && |Streak(initially, ops[..i + 1], uid)| % Limit(threshold) == 0
  }

  /** Whether the i-th operation starts a cooldown of the account, replacing any before it. */
  ghost predicate Cools(initially: bool, ops: seq<Op>, uid: string, threshold: int, i: nat)
    requires i < |ops|
  {
    || (Target(ops[i]) == uid && (ops[i].Cooldown? || ops[i].ForceCooldown?))
    || Trips(initially, ops, uid, threshold, i)
  }

  function EndOf(op: Op): int
    requires op.Cooldown? || op.ForceCooldown? || op.NoteError?
  {
    op.now + op.d
  }

  /** Whether the i-th operation ends any cooldown of the account. */
  predicate Releases(initially: bool, ops: seq<Op>, uid: string, i: nat)
    requires i < |ops|
  {
    Target(ops[i]) == uid &&
    (ops[i].Enable? || (ops[i].Reenable? && ops[i].remain > 0 && !DisabledBy(initially, ops[..i], uid)))
  }

  /** Neither a new cooldown nor a release from the i-th operation on. */
  ghost predicate Undisturbed(initially: bool, ops: seq<Op>, uid: string, threshold: int, i: nat) {
    forall j: nat :: i <= j < |ops| ==>
      !Cools(initially, ops, uid, threshold, j) && !Releases(initially, ops, uid, j)
  }

  /** The account's last cooldown, not ended since, lasts beyond t. */
  ghost predicate Cooling(a: Account, ops: seq<Op>, uid: string, threshold: int, t: int) {
    || (t < a.until && Undisturbed(a.disabled, ops, uid, threshold, 0))
    || exists i: nat :: i < |ops| && Cools(a.disabled, ops, uid, threshold, i) && t < EndOf(ops[i]) &&
                        Undisturbed(a.disabled, ops, uid, threshold, i + 1)
  }

  /** The amount of the last operation that told the account's balance. */
  function Balance(initially: int, ops: seq<Op>, uid: string): int
  {
    if ops == [] then initially
    else
      var last := ops[|ops| - 1];
      if last.SetCredits? && last.uid == uid then last.credits
      else if last.Reenable? && last.uid == uid then last.remain
      else Balance(initially, ops[..|ops| - 1], uid)
  }

  /** The reason given by the last operation that gave or cleared one. */
  ghost function Reason(a: Account, ops: seq<Op>, uid: string, threshold: int): string
  {
    if ops == [] then a.reason
    else
      var n := |ops| - 1;
      var last := ops[n];
      if Target(last) == uid && (last.Cooldown? || last.ForceCooldown? || last.Disable?) then last.reason
      else if Trips(a.disabled, ops, uid, threshold, n) then "consecutive errors"
      else if Releases(a.disabled, ops, uid, n) then ""
      else Reason(a, ops[..n], uid, threshold)
  }

  lemma PrefixAgrees(d: bool, ops: seq<Op>, uid: string, threshold: int, op: Op, i: nat)
    requires i < |ops|
    ensures (ops + [op])[i] == ops[i]
    ensures Cools(d, ops + [op], uid, threshold, i) == Cools(d, ops, uid, threshold, i)
    ensures Releases(d, ops + [op], uid, i) == Releases(d, ops, uid, i)
  {
    hide Streak, DisabledBy;
    assert (ops + [op])[..i] == ops[..i] && (ops + [op])[..i + 1] == ops[..i + 1];
  }

  lemma UndisturbedMore(d: bool, ops: seq<Op>, uid: string, threshold: int, op: Op, i: nat)
    requires i <= |ops|
    ensures Undisturbed(d, ops + [op], uid, threshold, i) <==>
              && Undisturbed(d, ops, uid, threshold, i)
              && !Cools(d, ops + [op], uid, threshold, |ops|) && !Releases(d, ops + [op], uid, |ops|)
  {
    hide Cools, Releases;
    forall j: nat | j < |ops|
      ensures Cools(d, ops + [op], uid, threshold, j) == Cools(d, ops, uid, threshold, j)
      ensures Releases(d, ops + [op], uid, j) == Releases(d, ops, uid, j)
    {
      PrefixAgrees(d, ops, uid, threshold, op, j);
    }
  }

  /** How one more operation changes whether the account is cooling. */
  lemma CoolingMore(a: Account, ops: seq<Op>, uid: string, threshold: int, op: Op, t: int)
    ensures var d, all, n := a.disabled, ops + [op], |ops|;
            Cooling(a, all, uid, threshold, t) <==>
              if Cools(d, all, uid, threshold, n) then t < EndOf(op)
              else !Releases(d, all, uid, n) && Cooling(a, ops, uid, threshold, t)
  {
    hide Cools, Releases, Undisturbed;
    var d, all, n := a.disabled, ops + [op], |ops|;
    UndisturbedMore(d, ops, uid, threshold, op, 0);
    assert all[n] == op;
    NothingAfter(d, all, uid, threshold);
    CooledIsTimed(d, all, uid, threshold, n);
    forall i: nat | i < n
      ensures all[i] == ops[i] && Cools(d, all, uid, threshold, i) == Cools(d, ops, uid, threshold, i)
      ensures Undisturbed(d, all, uid, threshold, i + 1) <==>
                && Undisturbed(d, ops, uid, threshold, i + 1)
                && !Cools(d, all, uid, threshold, n) && !Releases(d, all, uid, n)
    {
      PrefixAgrees(d, ops, uid, threshold, op, i);
      UndisturbedMore(d, ops, uid, threshold, op, i + 1);
    }
  }

  lemma CooledIsTimed(d: bool, ops: seq<Op>, uid: string, threshold: int, i: nat)
    requires i < |ops|
    ensures Cools(d, ops, uid, threshold, i) ==> ops[i].Cooldown? || ops[i].ForceCooldown? || ops[i].NoteError?
    ensures Cools(d, ops, uid, threshold, i) ==> !Releases(d, ops, uid, i)
  {
    hide Streak, DisabledBy;
  }

  lemma NothingAfter(d: bool, ops: seq<Op>, uid: string, threshold: int)
    ensures Undisturbed(d, ops, uid, threshold, |ops|)
  {
  }

  /** Whether the last operation trips, read off the account's error count. */
  lemma TripsNow(d: bool, ops: seq<Op>, uid: string, op: Op, threshold: int, errCount: nat)
    requires errCount == |Streak(d, ops, uid)| % Limit(threshold)
    requires IsError(op, uid) ==> op.threshold == threshold
    ensures Trips(d, ops + [op], uid, threshold, |ops|) <==> IsError(op, uid) && errCount + 1 >= threshold
  {
    hide Streak;
    assert (ops + [op])[..|ops| + 1] == ops + [op];
    if IsError(op, uid) {
      ErrorExtendsStreak(d, ops, uid, op);
      ModSucc(|Streak(d, ops, uid)|, Limit(threshold));
    }
  }

  lemma ReleasesNow(d: bool, ops: seq<Op>, uid: string, op: Op)
    ensures Releases(d, ops + [op], uid, |ops|) <==>
              Target(op) == uid && (op.Enable? || (op.Reenable? && op.remain > 0 && !DisabledBy(d, ops, uid)))
  {
    hide DisabledBy;
    assert (ops + [op])[..|ops|] == ops;
  }

  /** What an operation does to the cooldown, the balance and the reason of an account, in its own fields. */
  lemma FieldsStep(m: Accounts, uid: string, op: Op, threshold: int)
    requires uid in m && (IsError(op, uid) ==> op.threshold == threshold)
    ensures var a, b, mine := m[uid], Apply(m, op)[uid], Target(op) == uid;
            var trips := IsError(op, uid) && a.errCount + 1 >= threshold;
            var released := mine && (op.Enable? || (op.Reenable? && op.remain > 0 && !a.disabled));
            && b.until == (if (mine && (op.Cooldown? || op.ForceCooldown?)) || trips then EndOf(op)
                           else if released then 0 else a.until)
            && b.credits == (if mine && op.SetCredits? then op.credits
                             else if mine && op.Reenable? then op.remain else a.credits)
            && b.reason == (if mine && (op.Cooldown? || op.ForceCooldown? || op.Disable?) then op.reason
                            else if trips then "consecutive errors" else if released then "" else a.reason)
  {
  }

  /** After any run, an account is cooling at t exactly if its last cooldown lasts beyond t and was not ended since; its
      credits are the last balance told, and its reason is the last one given or cleared. */
  lemma {:induction false} FieldsAreHistory(m: Accounts, ops: seq<Op>, uid: string, threshold: int, t: int)
    requires uid in m && m[uid].errCount == 0 && SameThreshold(ops, uid, threshold) && t >= 0
    ensures uid in Run(m, ops)
    ensures t < Run(m, ops)[uid].until <==> Cooling(m[uid], ops, uid, threshold, t)
    ensures Run(m, ops)[uid].credits == Balance(m[uid].credits, ops, uid)
    ensures Run(m, ops)[uid].reason == Reason(m[uid], ops, uid, threshold)
  {
    ErrCountIsStreak(m, ops, uid, threshold);
    if ops == [] {
      NothingAfter(m[uid].disabled, ops, uid, threshold);
    } else {
      hide *;
      var init, op := ops[..|ops| - 1], ops[|ops| - 1];
      assert init + [op] == ops;
      ThresholdOfPrefix(ops, uid, threshold);
      FieldsAreHistory(m, init, uid, threshold, t);
      OneMoreField(m, init, uid, op, threshold, t);
    }
  }

  lemma ThresholdOfPrefix(ops: seq<Op>, uid: string, threshold: int)
    requires ops != [] && SameThreshold(ops, uid, threshold)
    ensures SameThreshold(ops[..|ops| - 1], uid, threshold)
    ensures IsError(ops[|ops| - 1], uid) ==> ops[|ops| - 1].threshold == threshold
  {
  }

  lemma OneMoreField(m: Accounts, init: seq<Op>, uid: string, op: Op, threshold: int, t: int)
    requires uid in m && m[uid].errCount == 0 && SameThreshold(init, uid, threshold) && t >= 0
    requires IsError(op, uid) ==> op.threshold == threshold
    requires uid in Run(m, init) && (t < Run(m, init)[uid].until <==> Cooling(m[uid], init, uid, threshold, t))
    requires Run(m, init)[uid].credits == Balance(m[uid].credits, init, uid)
    requires Run(m, init)[uid].reason == Reason(m[uid], init, uid, threshold)
    ensures var after := Run(m, init + [op]);
            && uid in after && (t < after[uid].until <==> Cooling(m[uid], init + [op], uid, threshold, t))
            && after[uid].credits == Balance(m[uid].credits, init + [op], uid)
            && after[uid].reason == Reason(m[uid], init + [op], uid, threshold)
  {
    hide Run, Streak, DisabledBy, Cooling, Trips, Releases, Limit, Effect;
    var d, before := m[uid].disabled, Run(m, init);
    ErrCountIsStreak(m, init, uid, threshold);
    DisabledIsLastSwitch(m, init, uid);
    RunMore(m, init, op);
    FieldsStep(before, uid, op, threshold);
    CoolingMore(m[uid], init, uid, threshold, op, t);
    TripsNow(d, init, uid, op, threshold, before[uid].errCount);
    ReleasesNow(d, init, uid, op);
    assert (init + [op])[..|init|] == init && (init + [op])[|init|] == op;
  }

  /** After any run, an account is available at t exactly if its last switch was not a Disable and no cooldown lasts. */
  lemma AvailableExactly(m: Accounts, ops: seq<Op>, uid: string, threshold: int, t: int)
    requires uid in m && m[uid].errCount == 0 && SameThreshold(ops, uid, threshold) && t >= 0
    ensures uid in Candidates(Run(m, ops), {}, t) <==>
              !DisabledBy(m[uid].disabled, ops, uid) && !Cooling(m[uid], ops, uid, threshold, t)
  {
    hide Run, DisabledBy, Cooling, Reason, Balance;
    FieldsAreHistory(m, ops, uid, threshold, t);
    DisabledIsLastSwitch(m, ops, uid);
  }
}
