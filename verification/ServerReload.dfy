/** When the account file brings back what memory no longer holds: the one save that who is who depends on, and
    accounts that nobody registered. */
module ServerReload {
  import opened Bytes
  import opened Message
  import opened Channel
  import opened UserFile
  import opened UserDb
  import opened UserDbMap
  import opened UserDbExact
  import opened ServerSpec
  import opened ServerInv
  import opened ServerIds
  import opened ServerRuns
  import opened ServerAuth
  import opened ServerKeys

  /** Slot `i` has become `x`, apart from what is queued for it, and no other slot has changed. */
  ghost predicate Only(s: Srv, s': Srv, i: nat, x: Client) {
    && i < |s.c| == |s'.c| && s'.c[i] == x.(tx := s'.c[i].tx)
    && forall j | 0 <= j < |s.c| && j != i :: s'.c[j] == s.c[j]
  }

  /** A request to the server. */
  predicate Asks(m: Msg, t: u16) { m.dst == 0 && m.mtype == t }

  function Guest(c: Client, id: u64, name: seq<byte>): Client {
    c.(st := AuthOk, id := id, name := Some(name), key := None)
  }

  function Waiting(c: Client, u: Entry): Client {
    c.(st := LoginOk, id := u.id, name := Some(u.name), key := HeldKey(c, u))
  }

  lemma Drops(s: Srv, i: nat, m: Msg, env: Env)
    requires i < |s.c| && s.c[i].st == AuthOk && Asks(m, DROP_REQ)
    ensures var s' := ProcessMsg(s, i, m, env);
            Only(s, s', i, s.c[i]) && s'.db == DropEntry(s.db, NameOf(s.c[i]), env.dropOk).0
  {
    hide DropEntry, Err, ServerSpec.Ok;
  }

  lemma LogsOut(s: Srv, i: nat, m: Msg, env: Env)
    requires i < |s.c| && s.c[i].st == AuthOk && Asks(m, LOGOUT_REQ)
    ensures var s' := ProcessMsg(s, i, m, env);
            Only(s, s', i, s.c[i].(st := PreLogin, id := 0, name := None, key := None)) && s'.db == s.db
  {
    hide Err, ServerSpec.Ok;
  }

  /** A LOGIN under a name that is neither registered nor in use. */
  lemma BecomesGuest(s: Srv, i: nat, m: Msg, env: Env, u: Entry)
    requires i < |s.c| && s.c[i].st == PreLogin && Names(m, u)
    requires LookupName(s.db, u.name) == (s.db, None) && !NameInUse(s.c, u.name) && Load(s.db) == s.db
    ensures var s' := ProcessMsg(s, i, m, env);
            && Only(s, s', i, Guest(s.c[i], s.db.nextId, u.name))
            && s'.db == s.db.(nextId := Succ(s.db.nextId))
  {
    StampKeeps(s.c[i], m);
    hide LookupName, Load, NameInUse, First, CStr, Err, ServerSpec.Ok, AddAttr, Response;
  }

  /** A LOGIN under the name of an account. */
  lemma StartsLogin(s: Srv, i: nat, m: Msg, env: Env, u: Entry)
    requires i < |s.c| && s.c[i].st == PreLogin && Names(m, u) && Account(s.db, u.name) == Some(u)
    ensures Only(s, ProcessMsg(s, i, m, env), i, Waiting(s.c[i], u))
  {
    StampKeeps(s.c[i], m);
    hide Load, Lookup, NameInUse, First, CStr, Err, ServerSpec.Ok, AddAttr, Response;
  }

  /** The accounts `a` and `b`, saved; slot `i` is authenticated as `b`, slot `k` as `a`, slot `j` not logged in;
      nobody else uses the name of `b`. */
  ghost predicate Scene(s: Srv, a: Entry, b: Entry, i: nat, j: nat, k: nat) {
    && IdInv(s) && 0 < s.db.nextId < MAX_ID && s.db.list == [a, b] && s.db.file == Some(Render([a, b]))
    && Storable(a) && Storable(b) && NameIsValid(a.name) && NameIsValid(b.name)
    && i < |s.c| && j < |s.c| && k < |s.c| && i != j && j != k && i != k
    && s.c[i].Peer() && s.c[i].name == Some(b.name) && s.c[k].Peer() && s.c[k].name == Some(a.name)
    && s.c[j].Open() && s.c[j].st == PreLogin
    && forall q | 0 <= q < |s.c| && q != i :: !Uses(s.c[q], b.name)
  }

  lemma SceneBindings(s: Srv, a: Entry, b: Entry, i: nat, j: nat, k: nat)
    requires Scene(s, a, b, i, j, k)
    ensures a.name != b.name && a.id != b.id && 0 < b.id < s.db.nextId && Distinct([a, b])
  {
    AccountBinds(s.db.list, 0);
    AccountBinds(s.db.list, 1);
    assert (a.id, a.name) in Bindings(s) && (b.id, b.name) in Bindings(s);
    assert s.db.list[0].name != s.db.list[1].name;
  }

  lemma FirstDrop(s: Srv, a: Entry, b: Entry, i: nat, j: nat, k: nat)
    requires Scene(s, a, b, i, j, k)
    ensures DropEntry(s.db, b.name, false).0 == s.db.(list := [a])
    ensures DropEntry(s.db.(list := [a]), a.name, false).0 == s.db.(list := [])
    ensures forall n :: LookupName(Db([a], n, s.db.file), b.name) == (Db([a], n, s.db.file), None)
    ensures DropSaved(s.db, false) && forall n :: !DropSaved(Db([a], n, s.db.file), false)
  {
    SceneBindings(s, a, b, i, j, k);
    hide Scene;
    assert [a, b][1..] == [b] && [a][1..] == [];
    assert IndexOf([a, b], b.name) == 1 && IndexOf([a], a.name) == 0 && IndexOf([a], b.name) == 1;
    assert [a, b][..1] + [a, b][2..] == [a] && [a][..0] + [a][1..] == [];
  }

  /** How the five messages move the slots and the database. */
  lemma SceneMoves(s: Srv, a: Entry, b: Entry, i: nat, j: nat, k: nat, drop: Msg, logout: Msg, login: Msg, bad: Env,
                   env: Env)
    requires Scene(s, a, b, i, j, k) && !bad.dropOk && env.dropOk
    requires Asks(drop, DROP_REQ) && Asks(logout, LOGOUT_REQ) && Names(login, b)
    ensures var s1 := ProcessMsg(s, i, drop, bad);
            var s2 := ProcessMsg(s1, i, logout, env);
            var s3 := ProcessMsg(s2, i, login, env);
            var s4 := ProcessMsg(s3, k, drop, bad);
            && Only(s, s1, i, s.c[i]) && s1.db == s.db.(list := [a])
            && Only(s1, s2, i, s1.c[i].(st := PreLogin, id := 0, name := None, key := None)) && s2.db == s1.db
            && Only(s2, s3, i, Guest(s2.c[i], s.db.nextId, b.name))
            && s3.db == Db([a], s.db.nextId + 1, s.db.file)
            && Only(s3, s4, k, s3.c[k]) && s4.db == Db([], s.db.nextId + 1, s.db.file)
  {
    hide IdInv, ProcessMsg, LookupName, DropEntry, Load, Uses;
    FirstDrop(s, a, b, i, j, k);
    Drops(s, i, drop, bad);
    var s1 := ProcessMsg(s, i, drop, bad);
    LogsOut(s1, i, logout, env);
    var s2 := ProcessMsg(s1, i, logout, env);
    NobodyUses(s, s2, i, b.name);
    NotReloaded(s2.db);
    hide Names, NameInUse;
    assert Names(login, b);
    BecomesGuest(s2, i, login, env, b);
    var s3 := ProcessMsg(s2, i, login, env);
    Drops(s3, k, drop, bad);
    SecondDrop(s.db.nextId + 1, s.db.file, a);
  }

  lemma NotReloaded(d: Db)
    requires d.list != []
    ensures Load(d) == d
  {}

  lemma SecondDrop(n: u64, file: Option<seq<byte>>, a: Entry)
    ensures DropEntry(Db([a], n, file), a.name, false).0 == Db([], n, file)
  {
    assert IndexOf([a], a.name) == 0 && [a][..0] + [a][1..] == [];
  }

  lemma NobodyUses(s: Srv, s2: Srv, i: nat, name: seq<byte>)
    requires i < |s.c| == |s2.c| && s2.c[i].name.None?
    requires forall q | 0 <= q < |s.c| && q != i :: s2.c[q] == s.c[q] && !Uses(s.c[q], name)
    ensures !NameInUse(s2.c, name)
  {}

  lemma TwoIdsOfName(s: Srv, i: nat, j: nat, name: seq<byte>)
    requires i < |s.c| && j < |s.c| && s.c[i].Open() && s.c[j].Open() && s.c[i].name == Some(name) == s.c[j].name
    requires s.c[i].id != s.c[j].id
    ensures !OneToOne(Bindings(s))
  {
    SlotBinds(s.c, i);
    SlotBinds(s.c, j);
    var p, q := (s.c[i].id, name), (s.c[j].id, name);
    assert p in Bindings(s) && q in Bindings(s);
  }

  /** The save that matters.  In such a state the owner of `b` drops the account, and the save fails: so far
      nothing is wrong.  He logs out and in again and is given a new id, as the name is free.  Then `a` is
      dropped, and this save fails too: memory is empty and the file still has both.  The next LOGIN under the
      name of `b` finds the account again: two open slots have one name and two ids. */
  lemma OneNameTwoIds(s: Srv, a: Entry, b: Entry, i: nat, j: nat, k: nat, drop: Msg, logout: Msg, login: Msg, bad: Env,
                      env: Env)
    requires Scene(s, a, b, i, j, k) && !bad.dropOk && env.dropOk && s.db.nextId + 1 < MAX_ID
    requires Asks(drop, DROP_REQ) && Asks(logout, LOGOUT_REQ) && Names(login, b)
    ensures var s1 := ProcessMsg(s, i, drop, bad);
            var s2 := ProcessMsg(s1, i, logout, env);
            var s3 := ProcessMsg(s2, i, login, env);
            var s4 := ProcessMsg(s3, k, drop, bad);
            var s5 := ProcessMsg(s4, j, login, env);
            && DropSaved(s.db, bad.dropOk) && IdInv(s3) && !DropSaved(s3.db, bad.dropOk)
            && |s5.c| == |s.c| && s5.c[i].Open() && s5.c[j].Open() && s5.c[i].name == Some(b.name) == s5.c[j].name
            && s5.c[i].id == s.db.nextId && s5.c[j].id == b.id && s.db.nextId != b.id
            && !OneToOne(Bindings(s5))
  {
    hide IdInv, OneToOne, ProcessMsg, LookupName, DropEntry, Load, Uses, NameInUse, Names;
    SceneMoves(s, a, b, i, j, k, drop, logout, login, bad, env);
    SceneBindings(s, a, b, i, j, k);
    FirstDrop(s, a, b, i, j, k);
    var s1 := ProcessMsg(s, i, drop, bad);
    var s2 := ProcessMsg(s1, i, logout, env);
    var s3 := ProcessMsg(s2, i, login, env);
    var s4 := ProcessMsg(s3, k, drop, bad);
    ProcessKeepsIds(s, i, drop, bad);
    ProcessKeepsIds(s1, i, logout, env);
    ProcessKeepsIds(s2, i, login, env);
    Reloaded(s4.db.nextId, [a, b], b);
    AccountNamed(s4.db, b.name);
    StartsLogin(s4, j, login, env, b);
    TwoIdsOfName(ProcessMsg(s4, j, login, env), i, j, b.name);
  }

  // ----- accounts that nobody registered -----

  /** REGISTER accepts a key with a line feed, and a restart makes another account of what follows it: one of any
      name, id and key.  So neither distinct ids nor the prefix of the keys survive a restart. */
  lemma RegisterMakesAccount(s: Srv, i: nat, m: Msg, env: Env, a: Entry, b: Entry)
    requires i < |s.c| && s.c[i].st == AuthOk && s.c[i].name == Some(a.name) && s.c[i].id == a.id
    requires First(m, PUBKEY).Some? && PLAINTEXT + CStr(First(m, PUBKEY).value) == WithLine(a, b).key
    requires DbOk(s.db) && env.dropOk && env.addOk
    requires var l := [a, b] + DropEntry(s.db, a.name, true).0.list;
             Distinct(l) && forall e <- l :: Storable(e) && NameIsValid(e.name) && e.id < MAX_ID
    ensures var l' := Load(Db([], 1, Register(s, i, m, env).0.db.file)).list;
            && a in l' && b in l'
            && (a.id == b.id ==> !GoodAccounts(l')) && (!(PLAINTEXT <= b.key) ==> !GoodKeys(l'))
  {
    hide First, CStr, DropEntry, Load, Err, ServerSpec.Ok, WithLine, Storable, NameIsValid;
    var d1 := DropEntry(s.db, a.name, true).0;
    DropDb(s.db, a.name, true);
    assert ([a, b] + d1.list)[0] == a;
    AddsFirst(d1, a, b);
    KeyMakesAccount(a, b, d1.list, d1.nextId);
    var l' := Load(Db([], 1, Register(s, i, m, env).0.db.file)).list;
    if a.id == b.id { SharedId(l', a, b); }
  }

  lemma AddsFirst(d: Db, a: Entry, b: Entry)
    requires DbOk(d) && Distinct([a, b] + d.list) && NameIsValid(a.name) && Storable(a)
    ensures AddEntry(d, a.id, a.name, WithLine(a, b).key, true).0.file
            == Save(Db([WithLine(a, b)] + d.list, d.nextId, None), true).file
  {
    LoadSettles(d);
    var l := [a, b] + d.list;
    assert l[0] == a && forall q | 0 <= q < |d.list| :: l[q + 2] == d.list[q];
    hide WithLine, Load, NameIsValid;
    assert WithLine(a, b) == Entry(a.id, a.name, WithLine(a, b).key) by { Relined(a, b); }
  }

  lemma Relined(a: Entry, b: Entry)
    ensures WithLine(a, b) == Entry(a.id, a.name, WithLine(a, b).key)
  {}

  lemma SharedId(l: seq<Entry>, a: Entry, b: Entry)
    requires a in l && b in l && a != b && a.id == b.id
    ensures !GoodAccounts(l)
  {
    var p :| 0 <= p < |l| && l[p] == a;
    var q :| 0 <= q < |l| && l[q] == b;
    assert l[p].id == l[q].id;
  }
}
