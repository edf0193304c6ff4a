/** When the server ends its process. */
module ServerDeath {
  import opened Bytes
  import opened Message
  import opened Channel
  import opened UserFile
  import opened UserDb
  import opened ServerSpec
  import opened ServerInv
  import opened ServerIds
  import opened ServerRuns
  import opened ServerAuth
  import opened ServerKeys

  // ----- processing a message -----

  /** A message that slot `i` must not send: a request for a list of peers that exceeds one message, or, when
      the slot waits for authentication without a key, any digest. */
  ghost predicate Fatal(c: seq<Client>, i: nat, m: Msg)
    requires i < |c|
  {
    && m.dst == 0
    && ((c[i].st == AuthOk && m.mtype == PEERLIST_REQ && |EncAttrs(PeerAttrs(c))| > MSG_MAX_PAY_SIZE)
        || (c[i].st == LoginOk && m.mtype == AUTH_REQ && First(m, DIGEST).Some? && c[i].key.None?))
  }

  lemma DiesOf(s: Srv, i: nat, m: Msg, env: Env)
    requires !s.dead && i < |s.c|
    ensures ProcessMsg(s, i, m, env).dead <==> Fatal(s.c, i, m)
  {
    hide Login, Auth, Register, DropAccount, Logout, Err, PeerAttrs, EncAttrs, First, AddAttr, EnqueueAt;
    var m' := Stamp(s.c[i], m);
    StampKeeps(s.c[i], m);
    LoginLives(s, i, m', env);
    AuthDies(s, i, m', env);
    OthersLive(s, i, m', env);
    ReplyLives(Dispatch(s, i, m', env).0, i, Dispatch(s, i, m', env).1);
  }

  lemma OthersLive(s: Srv, i: nat, m: Msg, env: Env)
    requires i < |s.c|
    ensures Register(s, i, m, env).0.dead == s.dead && DropAccount(s, i, m, env).0.dead == s.dead
    ensures Logout(s, i, m, env).0.dead == s.dead && forall k: nat | k < |s.c| :: EnqueueAt(s, k, m).dead == s.dead
  {
    hide DropEntry, AddEntry, ServerSpec.Ok, Err, First;
  }

  lemma ReplyLives(s: Srv, i: nat, reply: Option<Msg>)
    requires i < |s.c|
    ensures reply.Some? ==> EnqueueAt(s, i, reply.value).dead == s.dead
  {}

  lemma LoginLives(s: Srv, i: nat, m: Msg, env: Env)
    requires i < |s.c|
    ensures Login(s, i, m, env).0.dead == s.dead
  {
    hide LookupName, GetTempId, NameInUse, First, EncAttr;
  }

  lemma AuthDies(s: Srv, i: nat, m: Msg, env: Env)
    requires i < |s.c|
    ensures Auth(s, i, m, env).0.dead
            <==> s.dead || (s.c[i].st == LoginOk && First(m, DIGEST).Some? && s.c[i].key.None?)
  {
    hide First, EncAttr, CloseDoomed;
    CloseDoomedSpares(s, i, s.c[i].id);
  }

  /** As long as every stored key has the prefix, processing a message ends the server only for a list of
      peers. */
  lemma DiesOnlyOfPeers(s: Srv, i: nat, m: Msg, env: Env)
    requires KeysOk(s) && !s.dead && i < |s.c| && s.c[i].Open()
    ensures ProcessMsg(s, i, m, env).dead <==>
              && s.c[i].st == AuthOk && m.dst == 0 && m.mtype == PEERLIST_REQ
              && |EncAttrs(PeerAttrs(s.c))| > MSG_MAX_PAY_SIZE
  {
    hide ProcessMsg, EncAttrs, PeerAttrs, First;
    DiesOf(s, i, m, env);
    assert s.c[i] in s.c;
  }

  // ----- any step -----

  /** The event completes a header whose length field is beyond the limit. */
  ghost predicate Overlong(s: Srv, e: Event, cfg: Config) {
    && e.Input? && e.i < |s.c|
    && var got := ForRead(s, e.i, e.now, cfg).c[e.i].rbuf.value.got + e.chunk;
       |got| == MSG_HDR_SIZE && HdrGetPaylen(got) > MSG_MAX_PAY_SIZE
  }

  lemma {:induction false} SamePeers(c: seq<Client>, c': seq<Client>)
    requires |c'| == |c|
    requires forall j | 0 <= j < |c| ::
               c'[j].fd == c[j].fd && c'[j].st == c[j].st && c'[j].id == c[j].id && c'[j].name == c[j].name
    ensures PeerAttrs(c') == PeerAttrs(c)
  {
    if c != [] {
      SamePeers(c[..|c| - 1], c'[..|c| - 1]);
    }
  }

  lemma SameFatal(c: seq<Client>, i: nat, x: Client, m: Msg)
    requires i < |c| && x == c[i].(rbuf := x.rbuf, act := x.act)
    ensures Fatal(c[i := x], i, m) <==> Fatal(c, i, m)
  {
    SamePeers(c, c[i := x]);
    hide PeerAttrs, EncAttrs, First;
  }

  lemma InputDies(s: Srv, e: Event, cfg: Config)
    requires !s.dead && e.Input? && e.i < |s.c|
    requires var rx := ForRead(s, e.i, e.now, cfg).c[e.i].rbuf.value; rx.Ok() && 0 < |e.chunk| <= rx.size - |rx.got|
    ensures ReadAt(ForRead(s, e.i, e.now, cfg), e.i, e.chunk, e.env).dead
            <==> Overlong(s, e, cfg) || (Completed(s, e, cfg).Some? && Fatal(s.c, e.i, Completed(s, e, cfg).value))
  {
    hide ProcessMsg, Feed, Fatal;
    var i := e.i;
    var s1 := ForRead(s, i, e.now, cfg);
    match Feed(s1.c[i].rbuf.value, e.chunk)
    case Died =>
    case Pending(rx) =>
    case Complete(m) =>
      var x := s1.c[i].(rbuf := None);
      var s2 := s1.(c := s1.c[i := x]);
      assert s2.c == s.c[i := x];
      DiesOf(s2, i, m, e.env);
      SameFatal(s.c, i, x, m);
  }

  /** A step ends the server exactly if it completes a header with a length beyond the limit or a fatal
      message; nothing is assumed about the state. */
  lemma StepDies(s: Srv, e: Event, s': Srv, lfd: int, cfg: Config)
    requires Step(s, e, s', lfd, cfg)
    ensures s'.dead <==>
              Overlong(s, e, cfg) || (Completed(s, e, cfg).Some? && Fatal(s.c, e.i, Completed(s, e, cfg).value))
  {
    hide ReadAt, Fatal, Feed, Upkept, Written;
    match e
    case Input(i, now, chunk, env) => InputDies(s, e, cfg);
    case Upkeep(now) => SameLife(s, s', now, lfd, cfg);
    case _ =>
  }

  lemma SameLife(s: Srv, s': Srv, now: int, lfd: int, cfg: Config)
    requires Upkept(s, s', now, lfd, cfg)
    ensures s'.dead == s.dead
  {}

  // ----- both happen -----

  /** Any connection can end the server with forty bytes, whether or not it is logged in. */
  lemma HeaderEndsServer(s: Srv, i: nat, now: int, paylen: u16, rest: seq<byte>, env: Env, lfd: int, cfg: Config)
    requires !s.dead && i < |s.c| && s.c[i].Open() && s.c[i].rbuf.None? && env.Ok()
    requires paylen > MSG_MAX_PAY_SIZE && |rest| == 36
    ensures var chunk := [0, 0] + Be(paylen, 2) + rest;
            var s' := ReadAt(ForRead(s, i, now, cfg), i, chunk, env);
            Step(s, Input(i, now, chunk, env), s', lfd, cfg) && s'.dead
  {
    Powers();
    FromBeBe(paylen, 2);
    hide Be, FromBe;
    var chunk := [0, 0] + Be(paylen, 2) + rest;
    assert chunk[2..4] == Be(paylen, 2);
    assert [] + chunk == chunk;
    hide ProcessMsg;
  }

  /** So can a client that knows the name of an account whose key has no prefix: it logs in under that name
      and presents any digest at all. */
  lemma NoKeyEndsServer(s: Srv, i: nat, u: Entry, m1: Msg, m2: Msg, digest: seq<byte>, env: Env)
    requires !s.dead && i < |s.c| && s.c[i].st == PreLogin && s.c[i].key.None?
    requires Account(s.db, u.name) == Some(u) && !(PLAINTEXT <= u.key)
    requires Names(m1, u) && Presents(m2, digest)
    ensures ProcessMsg(ProcessMsg(s, i, m1, env), i, m2, env).dead
  {
    hide ProcessMsg, LookupName, First;
    LoginAs(s, i, m1, env, u);
    DiesOf(ProcessMsg(s, i, m1, env), i, m2, env);
  }
}
