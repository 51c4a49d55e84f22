/** Accounts over every run of the store, restarts included. */
module StoreUsers {
  import opened Store
  import opened StorePersistence

  /** No two users share a name. */
  ghost predicate NamesUnique(users: seq<User>)
  {
    forall i, j :: 0 <= i < j < |users| ==> users[i].username != users[j].username
  }

  /** Users are only ever added, and never under a name that is taken. */
  lemma StepKeepsUsers(s: State, e: Event)
    requires Mirrors(s) && NamesUnique(s.tables.users)
    ensures s.tables.users <= Step(s, e).0.tables.users && NamesUnique(Step(s, e).0.tables.users)
  {
    hide Load, Save, HasPending, FindRequest, MarkDelivered, QueryOffline;
    if e.cmd.Restart? {
      RestartIsInvisible(s, e);
    }
  }

  lemma {:induction false} RunKeepsUsers(s: State, es: seq<Event>)
    requires Mirrors(s) && NonNegative(s.tables.requests) && NamesUnique(s.tables.users)
    requires forall i :: 0 <= i < |es| ==> Genuine(es[i])
    ensures s.tables.users <= Run(s, es).tables.users && NamesUnique(Run(s, es).tables.users)
    decreases es
  {
    hide Mirrors, NonNegative, Step, NamesUnique;
    if es != [] {
      StepMirrors(s, es[0]);
      StepKeepsUsers(s, es[0]);
      RunKeepsUsers(Step(s, es[0]).0, es[1..]);
    }
  }

  /** The password check finds the one user of that name. */
  lemma VerifyByName(t: Tables, i: nat, hash: string)
    requires NamesUnique(t.users) && i < |t.users|
    ensures VerifyLogin(t, t.users[i].username, hash) ==
            if hash == t.users[i].passwordHash then t.users[i].uid else -1
  {
    var p := (u: User) => u.username == t.users[i].username && u.passwordHash == hash;
    var j := FindUser(t.users, p);
    hide FindUser;
    assert hash == t.users[i].passwordHash ==> p(t.users[i]);
    assert j < |t.users| ==> j == i;
  }

  /** Whoever registered can log in for ever after, with the password hash given then
      and no other, and gets the uid issued then, whatever commands and restarts come
      in between. */
  lemma RegisteredUserLogsIn(s: State, username: string, hash: string, es: seq<Event>, attempt: string)
    requires Mirrors(s) && NonNegative(s.tables.requests) && NamesUnique(s.tables.users)
    requires !NameTaken(s.tables.users, username)
    requires forall i :: 0 <= i < |es| ==> Genuine(es[i])
    ensures var (s', uid) := DoRegister(s, username, hash, ALL_FILES);
            VerifyLogin(Run(s', es).tables, username, attempt) == if attempt == hash then uid else -1
  {
    hide Mirrors, NonNegative, Run, VerifyLogin, DoRegister;
    var e := Event(CmdRegister(username, hash), ALL_FILES);
    var (s', uid) := DoRegister(s, username, hash, ALL_FILES);
    var i := |s.tables.users|;
    RegisterAppends(s, username, hash);
    StepMirrors(s, e);
    StepKeepsUsers(s, e);
    assert s' == Step(s, e).0;
    hide Step, NamesUnique;
    RunKeepsUsers(s', es);
    assert Run(s', es).tables.users[i] == User(uid, username, hash);
    VerifyByName(Run(s', es).tables, i, attempt);
  }

  lemma RegisterAppends(s: State, username: string, hash: string)
    requires !NameTaken(s.tables.users, username)
    ensures var (s', uid) := DoRegister(s, username, hash, ALL_FILES);
            s'.tables.users == s.tables.users + [User(uid, username, hash)]
  {
  }
}
