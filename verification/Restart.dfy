/** Stopping and starting again: what the saved state file brings back. */
module Restart {
  import opened Options
  import opened AccountPool

  datatype Event = Do(op: Op) | Restarted(auths: seq<Auth>)

  /** A new process: load the state file, then add the credentials found on disk. */
  function Reload(s: State, auths: seq<Auth>): State
  {
    if auths == [] then
      s.(accounts := if s.persistent && s.file.Some? then LoadAll(s.file.value) else map[])
    else
      AccountPool.Step(Reload(s, auths[..|auths| - 1]), Add(auths[|auths| - 1]))
  }

  /** Program start: build the pool from its state file, then add the credentials of the auth directory. */
  method Start(persistent: bool, file: Option<map<string, Saved>>, auths: seq<Auth>) returns (p: Pool)
    ensures fresh(p) && p.Valid()
    ensures p.View() == Reload(State(map[], persistent, file), auths)
  {
    p := new Pool(persistent, file);
    for i := 0 to |auths|
      invariant fresh(p) && p.Valid() && forall e :: e in p.byUID.Values ==> fresh(e)
      invariant p.View() == Reload(State(map[], persistent, file), auths[..i])
    {
      assert auths[..i + 1][..i] == auths[..i];
      p.Add(auths[i]);
    }
    assert auths[..|auths|] == auths;
  }

  function After(s: State, e: Event): State {
    match e
    case Do(op) => AccountPool.Step(s, op)
    case Restarted(auths) => Reload(s, auths)
  }

  function Run(s: State, events: seq<Event>): State
  {
    if events == [] then s else After(Run(s, events[..|events| - 1]), events[|events| - 1])
  }

  /** The file holds what memory holds, and accounts it does not name are as new. */
  ghost predicate Synced(s: State) {
    var file := if s.file.Some? then s.file.value else map[];
    && s.persistent
    && (forall k :: k in file ==> k in s.accounts && file[k] == SavedOf(s.accounts[k]))
    && (forall k :: k in s.accounts && k !in file ==> SavedOf(s.accounts[k]) == Saved(0, false, "", 0))
    && KeyedByUid(s.accounts)
  }

  lemma StepKeepsSynced(s: State, op: Op)
    requires Synced(s)
    ensures Synced(AccountPool.Step(s, op))
  {
  }

  lemma {:induction false} ReloadIsSynced(s: State, auths: seq<Auth>)
    requires s.persistent
    ensures Synced(Reload(s, auths))
    ensures Reload(s, auths).file == s.file
  {
    if auths != [] {
      ReloadIsSynced(s, auths[..|auths| - 1]);
      StepKeepsSynced(Reload(s, auths[..|auths| - 1]), Add(auths[|auths| - 1]));
      hide Synced;
    }
  }

  /** Memory and file agree at every point of every run, restarts included. */
  lemma {:induction false} AlwaysSynced(s: State, events: seq<Event>)
    requires Synced(s)
    ensures Synced(Run(s, events))
  {
    if events != [] {
      var before, e := Run(s, events[..|events| - 1]), events[|events| - 1];
      AlwaysSynced(s, events[..|events| - 1]);
      if e.Do? {
        StepKeepsSynced(before, e.op);
      } else {
        ReloadIsSynced(before, e.auths);
      }
    }
  }

  /** The credentials added after the restart are those the pool had; only saved placeholders may be missing. */
  ghost predicate SameCredentials(s: State, auths: seq<Auth>) {
    && (forall a :: a in auths ==> a.uid in s.accounts && s.accounts[a.uid].auth == a)
    && (forall k :: k in s.accounts ==>
          || s.accounts[k].auth in auths
          || (s.file.Some? && k in s.file.value && s.accounts[k].auth == Auth(k, "")))
  }

  /** What an account looks like after a restart: all but its error count. */
  function Forgiven(a: Account): Account { a.(errCount := 0) }

  function ForgiveAll(m: Accounts): Accounts {
    map k | k in m :: Forgiven(m[k])
  }

  /** Account by account: after adding some of the credentials, an account is back if it was saved or added. */
  lemma {:induction false} ReloadOne(s: State, auths: seq<Auth>, k: string)
    requires Synced(s)
    requires forall a :: a in auths ==> a.uid in s.accounts && s.accounts[a.uid].auth == a
    ensures var saved := s.file.Some? && k in s.file.value;
            var added := exists a :: a in auths && a.uid == k;
            && (k in Reload(s, auths).accounts <==> saved || added)
            && (saved || added ==>
                  k in s.accounts &&
                  Reload(s, auths).accounts[k] ==
                    if added then Forgiven(s.accounts[k]) else Forgiven(s.accounts[k]).(auth := Auth(k, "")))
  {
    if auths != [] {
      var init, last := auths[..|auths| - 1], auths[|auths| - 1];
      ReloadOne(s, init, k);
      assert forall a :: a in auths <==> a in init || a == last;
    }
  }

  /** A restart gives back the same pool, error counts apart. */
  lemma RestartRestores(s: State, auths: seq<Auth>)
    requires Synced(s) && SameCredentials(s, auths)
    ensures Reload(s, auths).accounts == ForgiveAll(s.accounts)
  {
    var m := Reload(s, auths).accounts;
    forall k
      ensures k in m <==> k in s.accounts
      ensures k in m ==> m[k] == Forgiven(s.accounts[k])
    {
      ReloadOne(s, auths, k);
      if k in s.accounts && s.accounts[k].auth in auths {
        assert s.accounts[k].auth.uid == k;
      }
    }
  }

  /** So the same accounts are healthy, and the same picks are possible. */
  lemma RestartKeepsPicks(s: State, auths: seq<Auth>, tried: set<string>, now: int, r: Option<Auth>)
    requires Synced(s) && SameCredentials(s, auths)
    ensures Candidates(Reload(s, auths).accounts, tried, now) == Candidates(s.accounts, tried, now)
    ensures IsPick(Reload(s, auths).accounts, tried, now, r) <==> IsPick(s.accounts, tried, now, r)
  {
    RestartRestores(s, auths);
    var m, m' := s.accounts, Reload(s, auths).accounts;
    assert Candidates(m', tried, now) == Candidates(m, tried, now);
    assert forall k :: k in m ==> (IsBest(m', tried, now, k) <==> IsBest(m, tried, now, k));
  }

  /** A disabled account stays disabled, restarts or not, until it is enabled. */
  lemma {:induction false} DisabledUntilEnabled(s: State, events: seq<Event>, uid: string)
    requires Synced(s) && uid in s.accounts && s.accounts[uid].disabled
    requires Do(Enable(uid)) !in events
    ensures uid in Run(s, events).accounts && Run(s, events).accounts[uid].disabled
  {
    if events != [] {
      var init, e := events[..|events| - 1], events[|events| - 1];
      DisabledUntilEnabled(s, init, uid);
      AlwaysSynced(s, init);
      if e.Restarted? {
        var before := Run(s, init);
        assert uid in before.file.value && before.file.value[uid].disabled;
        ReloadKeepsDisabled(before, e.auths, uid);
      }
    }
  }

  lemma {:induction false} ReloadKeepsDisabled(s: State, auths: seq<Auth>, uid: string)
    requires s.persistent && s.file.Some? && uid in s.file.value && s.file.value[uid].disabled
    ensures uid in Reload(s, auths).accounts && Reload(s, auths).accounts[uid].disabled
  {
    if auths != [] {
      ReloadKeepsDisabled(s, auths[..|auths| - 1], uid);
    }
  }
}
