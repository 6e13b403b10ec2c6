/** internal/pool/pool.go: accounts, their health, and the saved state file. */
module AccountPool {
  import opened Options

  /** An account's credentials; only the uid matters to the pool. */
  datatype Auth = Auth(uid: string, token: string)

  /** One account as the pool sees it. Times are nanoseconds, 0 being Go's zero time. */
  datatype Account = Account(auth: Auth, credits: int, disabled: bool, reason: string, until: int, errCount: nat)

  /** What the state file keeps of an account. */
  datatype Saved = Saved(credits: int, disabled: bool, reason: string, until: int)

  type Accounts = map<string, Account>

  datatype State = State(accounts: Accounts, persistent: bool, file: Option<map<string, Saved>>)

  datatype Op =
    | Add(auth: Auth)
    | SetCredits(uid: string, credits: int)
    | Cooldown(uid: string, now: int, d: int, reason: string)
    | Disable(uid: string, reason: string)
    | Reenable(uid: string, remain: int)
    | NoteError(uid: string, threshold: int, now: int, d: int)
    | NoteSuccess(uid: string)
    | Enable(uid: string)
    | ForceCooldown(uid: string, reason: string, now: int, d: int)

  predicate Healthy(a: Account, now: int) {
    !a.disabled && (a.until == 0 || now >= a.until)
  }

  function NewAccount(auth: Auth): Account {
    Account(auth, 0, false, "", 0, 0)
  }

  function SavedOf(a: Account): Saved {
    Saved(a.credits, a.disabled, a.reason, a.until)
  }

  function Restored(uid: string, s: Saved): Account {
    Account(Auth(uid, ""), s.credits, s.disabled, s.reason, s.until, 0)
  }

  function SaveAll(m: Accounts): map<string, Saved> {
    map k | k in m :: SavedOf(m[k])
  }

  function LoadAll(file: map<string, Saved>): Accounts {
    map k | k in file :: Restored(k, file[k])
  }

  function Target(op: Op): string {
    if op.Add? then op.auth.uid else op.uid
  }

  /** What an operation does to the account it names. */
  function Effect(a: Account, op: Op): Account {
    match op
    case Add(auth) => a.(auth := auth)
    case SetCredits(_, credits) => a.(credits := credits)
    case Cooldown(_, now, d, reason) => a.(until := now + d, reason := reason, errCount := 0)
    case ForceCooldown(_, reason, now, d) => a.(until := now + d, reason := reason, errCount := 0)
    case Disable(_, reason) => a.(disabled := true, reason := reason)
    case Reenable(_, remain) =>
      var b := a.(credits := remain);
      if remain > 0 && !a.disabled then b.(until := 0, reason := "", errCount := 0) else b
    case NoteError(_, threshold, now, d) =>
      if a.errCount + 1 >= threshold then a.(until := now + d, reason := "consecutive errors", errCount := 0)
      else a.(errCount := a.errCount + 1)
    case NoteSuccess(_) => a.(errCount := 0)
    case Enable(_) => a.(disabled := false, until := 0, reason := "", errCount := 0)
  }

  function Apply(m: Accounts, op: Op): Accounts {
    var uid := Target(op);
    if uid in m then m[uid := Effect(m[uid], op)]
    else if op.Add? then m[uid := NewAccount(op.auth)]
    else m
  }

  predicate Saves(op: Op) {
    !op.Add? && !op.NoteSuccess?
  }

  function Step(s: State, op: Op): State {
    var m := Apply(s.accounts, op);
    s.(accounts := m, file := if s.persistent && Saves(op) then Some(SaveAll(m)) else s.file)
  }

  // ---- picking ----------------------------------------------------------

  ghost function Candidates(m: Accounts, tried: set<string>, now: int): set<string> {
    set k | k in m && k !in tried && Healthy(m[k], now)
  }

  ghost predicate IsBest(m: Accounts, tried: set<string>, now: int, k: string) {
    var c := Candidates(m, tried, now);
    k in c && forall j :: j in c ==> m[j].credits <= m[k].credits
  }

  /** What PickExcluding may return: any of the richest healthy untried accounts, or none if there is none. */
  ghost predicate IsPick(m: Accounts, tried: set<string>, now: int, r: Option<Auth>) {
    match r
    case None => Candidates(m, tried, now) == {}
    case Some(a) => exists k :: IsBest(m, tried, now, k) && m[k].auth == a
  }

  /** Accounts are filed under their own uid. */
  ghost predicate KeyedByUid(m: Accounts) {
    forall k :: k in m ==> m[k].auth.uid == k
  }

  lemma ApplyKeepsKeys(m: Accounts, op: Op)
    requires KeyedByUid(m)
    ensures KeyedByUid(Apply(m, op))
  {
  }

  /** A picked account is filed under the uid the request marks as tried, so it is not picked again. */
  lemma PickIsUntried(m: Accounts, tried: set<string>, now: int, a: Auth)
    requires KeyedByUid(m) && IsPick(m, tried, now, Some(a))
    ensures IsBest(m, tried, now, a.uid) && a.uid in m && m[a.uid].auth == a
  {
  }

  // ---- the pool itself ----------------------------------------------------

  class Entry {
    var a: Auth
    var credits: int
    var disabled: bool
    var reason: string
    var until: int
    var errCount: nat

    constructor (v: Account)
      ensures View() == v
    {
      a, credits, disabled := v.auth, v.credits, v.disabled;
      reason, until, errCount := v.reason, v.until, v.errCount;
    }

    function View(): Account
      reads this
    {
      Account(a, credits, disabled, reason, until, errCount)
    }
  }

  class Pool {
    const persistent: bool  // whether a state file is configured
    var byUID: map<string, Entry>
    var file: Option<map<string, Saved>>

    ghost predicate Valid()
      reads this
    {
      forall k, l :: k in byUID && l in byUID && byUID[k] == byUID[l] ==> k == l
    }

    ghost function View(): State
      reads this, byUID.Values
    {
      State(Listing(), persistent, file)
    }

    ghost function Listing(): Accounts
      reads this`byUID, byUID.Values
    {
      map k | k in byUID :: byUID[k].View()
    }

    /** New and load: the saved accounts come back with placeholder credentials. */
    constructor (persistent: bool, file: Option<map<string, Saved>>)
      ensures Valid() && forall k :: k in byUID ==> fresh(byUID[k])
      ensures View() == State(if persistent && file.Some? then LoadAll(file.value) else map[], persistent, file)
    {
      this.persistent := persistent;
      this.file := file;
      byUID := map[];
      new;
      if persistent && file.Some? {
        var rest := file.value.Keys;
        while rest != {}
          invariant rest <= file.value.Keys
          invariant Valid() && forall k :: k in byUID ==> fresh(byUID[k])
          invariant this.file == file
          invariant byUID.Keys == file.value.Keys - rest
          invariant forall k :: k in byUID ==> byUID[k].View() == Restored(k, file.value[k])
        {
          var uid :| uid in rest;
          var e := new Entry(Restored(uid, file.value[uid]));
          byUID := byUID[uid := e];
          rest := rest - {uid};
        }
      }
    }

    method Add(a: Auth)
      requires Valid()
      modifies this`byUID, byUID.Values
      ensures Valid() && fresh(byUID.Values - old(byUID.Values))
      ensures View() == Step(old(View()), Op.Add(a))
    {
      if a.uid in byUID {
        byUID[a.uid].a := a;
      } else {
        var e := new Entry(NewAccount(a));
        byUID := byUID[a.uid := e];
      }
    }

    method PickExcluding(tried: set<string>, now: int) returns (acct: Option<Auth>)
      requires Valid()
      ensures IsPick(Listing(), tried, now, acct)
    {
      var best: Entry? := null;
      ghost var at := "";
      var rest := byUID.Keys;
      while rest != {}
        invariant rest <= byUID.Keys
        invariant best == null ==> Candidates(Listing(), tried, now) <= rest
        invariant best != null ==> at in Candidates(Listing(), tried, now) && byUID[at] == best
        invariant best != null ==> forall j :: j in Candidates(Listing(), tried, now) - rest ==>
                                     byUID[j].credits <= best.credits
      {
        var uid :| uid in rest;
        rest := rest - {uid};
        var e := byUID[uid];
        if uid in tried {
          continue;
        }
        if e.disabled || (e.until != 0 && now < e.until) {
          continue;
        }
        if best == null || e.credits > best.credits {
          best := e;
          at := uid;
        }
      }
      if best == null {
        return None;
      }
      assert IsBest(Listing(), tried, now, at);
      return Some(best.a);
    }

    twostate lemma OneEntryChanged(uid: string)
      requires old(Valid()) && byUID == old(byUID) && uid in byUID
      requires forall k :: k in byUID && k != uid ==> unchanged(byUID[k])
      ensures Listing() == old(Listing())[uid := byUID[uid].View()]
    {
    }

    method SaveLocked()
      requires Valid()
      modifies this`file
      ensures file == if persistent then Some(SaveAll(Listing())) else old(file)
    {
      if !persistent {
        return;
      }
      var accounts: map<string, Saved> := map[];
      var rest := byUID.Keys;
      while rest != {}
        invariant rest <= byUID.Keys && accounts.Keys == byUID.Keys - rest
        invariant forall k :: k in accounts ==> accounts[k] == SavedOf(byUID[k].View())
      {
        var uid :| uid in rest;
        var e := byUID[uid];
        accounts := accounts[uid := Saved(e.credits, e.disabled, e.reason, e.until)];
        rest := rest - {uid};
      }
      assert accounts == SaveAll(Listing());
      file := Some(accounts);
    }

    /** An operation on the accounts is completed by saving them. */
    method SaveStep(ghost before: State, ghost op: Op)
      requires Valid() && Saves(op)
      requires Listing() == Apply(before.accounts, op) && persistent == before.persistent && file == before.file
      modifies this`file
      ensures View() == Step(before, op)
    {
      hide Apply, SaveAll;
      SaveLocked();
    }

    method SetCredits(uid: string, credits: int)
      requires Valid()
      modifies this`file, byUID.Values
      ensures Valid()
      ensures View() == Step(old(View()), Op.SetCredits(uid, credits))
    {
      hide Step, SaveAll;
      if uid in byUID {
        byUID[uid].credits := credits;
        OneEntryChanged(uid);
        assert byUID[uid].View() == Effect(old(byUID[uid].View()), Op.SetCredits(uid, credits));
      }
      SaveStep(old(View()), Op.SetCredits(uid, credits));
    }

    method Cooldown(uid: string, d: int, reason: string, now: int)
      requires Valid()
      modifies this`file, byUID.Values
      ensures Valid()
      ensures View() == Step(old(View()), Op.Cooldown(uid, now, d, reason))
    {
      hide Step, SaveAll;
      if uid in byUID {
        var e := byUID[uid];
        e.until := now + d;
        e.reason := reason;
        e.errCount := 0;
        OneEntryChanged(uid);
        assert byUID[uid].View() == Effect(old(byUID[uid].View()), Op.Cooldown(uid, now, d, reason));
      }
      SaveStep(old(View()), Op.Cooldown(uid, now, d, reason));
    }

    method Disable(uid: string, reason: string)
      requires Valid()
      modifies this`file, byUID.Values
      ensures Valid()
      ensures View() == Step(old(View()), Op.Disable(uid, reason))
    {
      hide Step, SaveAll;
      if uid in byUID {
        var e := byUID[uid];
        e.disabled := true;
        e.reason := reason;
        OneEntryChanged(uid);
        assert byUID[uid].View() == Effect(old(byUID[uid].View()), Op.Disable(uid, reason));
      }
      SaveStep(old(View()), Op.Disable(uid, reason));
    }

    method ReenableIfCredits(uid: string, remain: int)
      requires Valid()
      modifies this`file, byUID.Values
      ensures Valid()
      ensures View() == Step(old(View()), Op.Reenable(uid, remain))
    {
      hide Step, SaveAll;
      if uid in byUID {
        var e := byUID[uid];
        e.credits := remain;
        if remain > 0 && !e.disabled {
          e.until := 0;
          e.reason := "";
          e.errCount := 0;
        }
        OneEntryChanged(uid);
        assert byUID[uid].View() == Effect(old(byUID[uid].View()), Op.Reenable(uid, remain));
      }
      SaveStep(old(View()), Op.Reenable(uid, remain));
    }

    method NoteError(uid: string, threshold: int, d: int, now: int)
      requires Valid()
      modifies this`file, byUID.Values
      ensures Valid()
      ensures View() == Step(old(View()), Op.NoteError(uid, threshold, now, d))
    {
      hide Step, SaveAll;
      if uid in byUID {
        var e := byUID[uid];
        e.errCount := e.errCount + 1;
        if e.errCount >= threshold {
          e.until := now + d;
          e.reason := "consecutive errors";
          e.errCount := 0;
        }
        OneEntryChanged(uid);
        assert byUID[uid].View() == Effect(old(byUID[uid].View()), Op.NoteError(uid, threshold, now, d));
      }
      SaveStep(old(View()), Op.NoteError(uid, threshold, now, d));
    }

    method NoteSuccess(uid: string)
      requires Valid()
      modifies byUID.Values
      ensures Valid()
      ensures View() == Step(old(View()), Op.NoteSuccess(uid))
    {
      if uid in byUID {
        byUID[uid].errCount := 0;
      }
    }

    method Enable(uid: string)
      requires Valid()
      modifies this`file, byUID.Values
      ensures Valid()
      ensures View() == Step(old(View()), Op.Enable(uid))
    {
      hide Step, SaveAll;
      if uid in byUID {
        var e := byUID[uid];
        e.disabled := false;
        e.until := 0;
        e.reason := "";
        e.errCount := 0;
        OneEntryChanged(uid);
        assert byUID[uid].View() == Effect(old(byUID[uid].View()), Op.Enable(uid));
      }
      SaveStep(old(View()), Op.Enable(uid));
    }

    method ForceCooldown(uid: string, reason: string, d: int, now: int)
      requires Valid()
      modifies this`file, byUID.Values
      ensures Valid()
      ensures View() == Step(old(View()), Op.ForceCooldown(uid, reason, now, d))
    {
      hide Step, SaveAll;
      if uid in byUID {
        var e := byUID[uid];
        e.until := now + d;
        e.reason := reason;
        e.errCount := 0;
        OneEntryChanged(uid);
        assert byUID[uid].View() == Effect(old(byUID[uid].View()), Op.ForceCooldown(uid, reason, now, d));
      }
      SaveStep(old(View()), Op.ForceCooldown(uid, reason, now, d));
    }
  }
}
