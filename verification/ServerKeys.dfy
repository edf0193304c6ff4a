/** The keys that the server compares digests with: where they come from, and what a key without the prefix
    does to authentication. */
module ServerKeys {
  import opened Bytes
  import opened Message
  import opened Channel
  import opened UserFile
  import opened UserDb
  import opened UserDbMap
  import opened ServerSpec
  import opened ServerInv
  import opened ServerIds
  import opened ServerPeers
  import opened ServerRuns
  import opened ServerAuth

  /** Every stored key is one that REGISTER could have written. */
  ghost predicate GoodKeys(l: seq<Entry>) { forall e <- l :: PLAINTEXT <= e.key }

  /** Every slot that waits for authentication holds a key to compare with. */
  ghost predicate Armed(c: seq<Client>) { forall x <- c | x.Open() && x.st == LoginOk :: x.key.Some? }

  /** In memory, or in the file that is to be loaded, all keys are good. */
  ghost predicate KeysOk(s: Srv) { GoodKeys(Load(s.db).list) && Armed(s.c) }

  // ----- the database -----

  lemma NothingSaved(d: Db)
    requires d.list == [] && d.file == Some(Render([]))
    ensures Load(d).list == []
  {}

  lemma SettledStays(d: Db)
    requires Settled(d)
    ensures Load(d) == d && forall n :: Load(d.(nextId := n)) == d.(nextId := n)
  {
    LoadSettles(d);
    forall n
      ensures Load(d.(nextId := n)) == d.(nextId := n)
    {
      LoadSettles(d.(nextId := n));
    }
  }

  lemma DropGoodKeys(d: Db, name: seq<byte>, ok: bool)
    requires GoodKeys(Load(d).list) && DropSaved(d, ok)
    ensures GoodKeys(Load(DropEntry(d, name, ok).0).list)
  {
    var l := Load(d);
    var d' := DropEntry(d, name, ok).0;
    LoadSettles(d);
    var k := IndexOf(l.list, name);
    if k < |l.list| {
      if |l.list| == 1 {
        NothingSaved(d');
      } else {
        assert d'.list != [];
        assert forall e <- d'.list :: e in l.list;
      }
    }
    hide LoadLines, Render;
  }

  lemma AddGoodKeys(d: Db, id: u64, name: seq<byte>, key: seq<byte>, ok: bool)
    requires GoodKeys(Load(d).list) && PLAINTEXT <= key
    ensures GoodKeys(Load(AddEntry(d, id, name, key, ok).0).list)
  {
    hide LoadLines, Render, NameIsValid, Lookup;
    LoadSettles(d);
    var d' := AddEntry(d, id, name, key, ok).0;
    if d'.list == [] && ok { NothingSaved(d'); }
  }

  lemma RegisterGoodKeys(s: Srv, i: nat, m: Msg, env: Env)
    requires GoodKeys(Load(s.db).list) && i < |s.c| && DropSaved(s.db, env.dropOk)
    ensures GoodKeys(Load(Register(s, i, m, env).0.db).list)
  {
    hide DropEntry, AddEntry, First, NameOf, CStr, GoodKeys, Err, ServerSpec.Ok, Load;
    if s.c[i].st == AuthOk && First(m, PUBKEY).Some? {
      var name, key := NameOf(s.c[i]), PLAINTEXT + CStr(First(m, PUBKEY).value);
      DropGoodKeys(s.db, name, env.dropOk);
      AddGoodKeys(DropEntry(s.db, name, env.dropOk).0, s.c[i].id, name, key, env.addOk);
    }
  }

  lemma ServerMsgGoodKeys(s: Srv, i: nat, m: Msg, env: Env)
    requires GoodKeys(Load(s.db).list) && i < |s.c| && DropSaved(s.db, env.dropOk)
    ensures GoodKeys(Load(ServerMsg(s, i, m, env).0.db).list)
  {
    hide GoodKeys, Load;
    RegisterGoodKeys(s, i, m, env);
    DropGoodKeys(s.db, NameOf(s.c[i]), env.dropOk);
    LoginList(s, i, m, env);
    AuthList(s, i, m, env);
    ServerMsgIs(s, i, m, env);
    hide Register, Login, Auth, DropEntry, EncAttrs, PeerAttrs, Err, ServerSpec.Ok, NameOf, ServerMsg;
  }

  lemma LoginList(s: Srv, i: nat, m: Msg, env: Env)
    requires i < |s.c|
    ensures Load(Login(s, i, m, env).0.db).list == Load(s.db).list
  {
    hide First, Err, ServerSpec.Ok, NameInUse;
    LoadSettles(s.db);
    SettledStays(Load(s.db));
    hide Settled, Load;
  }

  lemma AuthList(s: Srv, i: nat, m: Msg, env: Env)
    requires i < |s.c|
    ensures Auth(s, i, m, env).0.db == s.db
  {
    hide First, Err, ServerSpec.Ok, CloseDoomed;
    CloseDoomedSpares(s, i, s.c[i].id);
  }

  lemma ProcessGoodKeys(s: Srv, i: nat, m: Msg, env: Env)
    requires GoodKeys(Load(s.db).list) && i < |s.c| && DropSaved(s.db, env.dropOk)
    ensures GoodKeys(Load(ProcessMsg(s, i, m, env).db).list)
  {
    hide GoodKeys, ServerMsg, Err, Load;
    ServerMsgGoodKeys(s, i, Stamp(s.c[i], m), env);
  }

  lemma InputGoodKeys(s: Srv, i: nat, now: int, chunk: seq<byte>, env: Env, cfg: Config)
    requires GoodKeys(Load(s.db).list) && i < |s.c| && s.c[i].Open() && DropSaved(s.db, env.dropOk)
    requires var rx := ForRead(s, i, now, cfg).c[i].rbuf.value; rx.Ok() && 0 < |chunk| <= rx.size - |rx.got|
    ensures GoodKeys(Load(ReadAt(ForRead(s, i, now, cfg), i, chunk, env).db).list)
  {
    hide GoodKeys, ProcessMsg, Feed, Load;
    var s1 := ForRead(s, i, now, cfg);
    match Feed(s1.c[i].rbuf.value, chunk)
    case Died =>
    case Pending(rx) =>
    case Complete(m) => ProcessGoodKeys(s1.(c := s1.c[i := s1.c[i].(rbuf := None)]), i, m, env);
  }

  // ----- the slots -----

  /** A message that leaves a slot waiting for authentication leaves it with a key. */
  lemma EffectKey(s: Srv, x: Client, m: Msg, y: Client)
    requires KeysOk(s) && LoginEffect(s, x, m, y) && x in s.c && x.Open() && y.st == LoginOk
    ensures y.key.Some?
  {
    hide First, CStr, Load;
    if First(m, USERNAME).Some? { AccountStored(s.db, CStr(First(m, USERNAME).value)); }
  }

  lemma AccountStored(d: Db, name: seq<byte>)
    ensures var u := Account(d, name); u.Some? ==> u.value in Load(d).list
  {
    hide Load;
  }

  /** Processing a message as a step of its own. */
  lemma ProcessKeepsArmed(s: Srv, i: nat, m: Msg, env: Env)
    requires KeysOk(s) && i < |s.c| && s.c[i].Open()
    ensures Armed(ProcessMsg(s, i, m, env).c)
  {
    hide ProcessMsg, LoginEffect, GoodKeys;
    var s' := ProcessMsg(s, i, m, env);
    forall y <- s'.c | y.Open() && y.st == LoginOk
      ensures y.key.Some?
    {
      var j :| 0 <= j < |s'.c| && s'.c[j] == y;
      ProcessEffect(s, i, m, env, j);
      assert s.c[j] in s.c;
      if j == i { EffectKey(s, s.c[i], m, y); }
    }
  }

  // ----- every step -----

  lemma StepGoodKeys(s: Srv, e: Event, s': Srv, lfd: int, cfg: Config)
    requires GoodKeys(Load(s.db).list) && Step(s, e, s', lfd, cfg) && Saved(s, e)
    ensures GoodKeys(Load(s'.db).list)
  {
    hide GoodKeys, ReadAt, Upkept, Written, Survivors, FindFree, Load;
    match e
    case Input(i, now, chunk, env) => InputGoodKeys(s, i, now, chunk, env, cfg);
    case Upkeep(now) => SameCounter(s, s', now, lfd, cfg);
    case _ =>
  }

  /** While every account has a good key, every slot that waits for authentication holds a key. */
  lemma StepKeepsArmed(s: Srv, e: Event, s': Srv, lfd: int, cfg: Config)
    requires KeysOk(s) && Step(s, e, s', lfd, cfg)
    ensures Armed(s'.c)
  {
    hide Step, LoginEffect, Completed, GoodKeys;
    forall y <- s'.c | y.Open() && y.st == LoginOk
      ensures y.key.Some?
    {
      var j :| 0 <= j < |s'.c| && s'.c[j] == y;
      StepEffect(s, e, s', lfd, cfg, j);
      if e.Input? && e.i < |s.c| && s.c[e.i].Open() && Completed(s, e, cfg).Some?
         && LoginEffect(s, s.c[e.i], Completed(s, e, cfg).value, y) {
        EffectKey(s, s.c[e.i], Completed(s, e, cfg).value, y);
      }
    }
  }

  lemma StepKeepsKeys(s: Srv, e: Event, s': Srv, lfd: int, cfg: Config)
    requires KeysOk(s) && Step(s, e, s', lfd, cfg) && Saved(s, e)
    ensures KeysOk(s')
  {
    hide Step, GoodKeys, Armed, DropSaved;
    StepGoodKeys(s, e, s', lfd, cfg);
    StepKeepsArmed(s, e, s', lfd, cfg);
  }

  // ----- without the prefix -----

  /** A LOGIN that names the account `u`. */
  ghost predicate Names(m: Msg, u: Entry) {
    m.dst == 0 && m.mtype == LOGIN_REQ && First(m, USERNAME).Some? && CStr(First(m, USERNAME).value) == u.name
  }

  /** An AUTH that presents `key`. */
  ghost predicate Presents(m: Msg, key: seq<byte>) {
    m.dst == 0 && m.mtype == AUTH_REQ && First(m, DIGEST).Some? && CStr(First(m, DIGEST).value) == key
  }

  /** Slot `i` has become `x`, apart from what is queued for it, and the accounts are the same. */
  ghost predicate Becomes(s: Srv, s': Srv, i: nat, x: Client) {
    && i < |s.c| == |s'.c| && s'.c[i] == x.(tx := s'.c[i].tx)
    && s'.dead == s.dead && Load(s'.db) == Load(s.db)
  }

  lemma LoginAs(s: Srv, i: nat, m: Msg, env: Env, u: Entry)
    requires i < |s.c| && s.c[i].st == PreLogin && Names(m, u) && Account(s.db, u.name) == Some(u)
    ensures Becomes(s, ProcessMsg(s, i, m, env), i,
                    s.c[i].(st := LoginOk, id := u.id, name := Some(u.name), key := HeldKey(s.c[i], u)))
  {
    LoadSettles(s.db);
    StampKeeps(s.c[i], m);
    hide First, CStr, Err, ServerSpec.Ok, NameInUse, Lookup, AddAttr, Response, Load;
  }

  lemma WrongDigest(s: Srv, i: nat, m: Msg, env: Env, key: seq<byte>)
    requires i < |s.c| && s.c[i].st == LoginOk && s.c[i].key.Some? && key != s.c[i].key.value && Presents(m, key)
    ensures Becomes(s, ProcessMsg(s, i, m, env), i, s.c[i].(st := PreLogin))
  {
    StampKeeps(s.c[i], m);
    hide First, CStr, Err, ServerSpec.Ok, CloseDoomed;
  }

  lemma RightDigest(s: Srv, i: nat, m: Msg, env: Env, key: seq<byte>)
    requires i < |s.c| && s.c[i].st == LoginOk && s.c[i].key == Some(key) && Presents(m, key)
    ensures Becomes(s, ProcessMsg(s, i, m, env), i, s.c[i].(st := AuthOk))
  {
    StampKeeps(s.c[i], m);
    CloseDoomedSpares(s, i, s.c[i].id);
    hide First, CStr, Err, ServerSpec.Ok, CloseDoomed;
  }

  /** A key without the prefix lets in who does not know it.  Whoever knows the key of one account `a` logs in
      as `a`, fails to authenticate, logs in as `u`, and is `u` after presenting the key of `a`. */
  lemma StaleKeyLetsIn(s: Srv, i: nat, a: Entry, u: Entry, m1: Msg, m2: Msg, m3: Msg, m4: Msg, wrong: seq<byte>,
          env: Env)
    requires i < |s.c| && s.c[i].st == PreLogin
    requires Account(s.db, a.name) == Some(a) && Account(s.db, u.name) == Some(u)
    requires PLAINTEXT <= a.key && !(PLAINTEXT <= u.key) && wrong != a.key
    requires Names(m1, a) && Presents(m2, wrong) && Names(m3, u) && Presents(m4, a.key)
    ensures var s1 := ProcessMsg(s, i, m1, env);
            var s2 := ProcessMsg(s1, i, m2, env);
            var s3 := ProcessMsg(s2, i, m3, env);
            Becomes(s, ProcessMsg(s3, i, m4, env), i,
                    s.c[i].(st := AuthOk, id := u.id, name := Some(u.name), key := Some(a.key)))
    ensures u.key != a.key
  {
    hide ProcessMsg, Names, Presents, Lookup, Load;
    LoginAs(s, i, m1, env, a);
    var s1 := ProcessMsg(s, i, m1, env);
    WrongDigest(s1, i, m2, env, wrong);
    var s2 := ProcessMsg(s1, i, m2, env);
    LoginAs(s2, i, m3, env, u);
    RightDigest(ProcessMsg(s2, i, m3, env), i, m4, env, a.key);
  }
}
