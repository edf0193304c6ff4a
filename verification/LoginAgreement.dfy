/** Client and server agree about the login state of a connection (cltmain.c `process_srvmsg`, srvmain.c
    `process_server_msg`).

    One client, the whole server, and two message queues in flight; other connections and housekeeping
    act on the server at any time. */
module LoginAgreement {
  import opened Bytes
  import opened Message
  import opened Channel
  import opened UserFile
  import opened UserDb
  import opened ServerSpec
  import opened ServerInv
  import opened ServerIds
  import opened ServerPeers
  import opened ServerRuns
  import opened ServerAuth
  import opened ServerKeys
  import opened ServerIo
  import C = ClientSpec

  /** Requests on their way to the server, messages on their way to the client. */
  datatype Sys = Sys(srv: Srv, clt: C.Clt, up: seq<Msg>, down: seq<Msg>)

  /** The open slot with descriptor `fd`, or the length of the array. */
  function FindFd(c: seq<Client>, fd: nat): (k: nat)
    ensures k <= |c| && forall j | 0 <= j < k :: !(c[j].Open() && c[j].fd == fd)
    ensures k < |c| ==> c[k].Open() && c[k].fd == fd
  {
    if c == [] || (c[0].Open() && c[0].fd == fd) then 0 else 1 + FindFd(c[1..], fd)
  }

  // ----- what a message does to the client's login state -----

  predicate IsOk(m: Msg) { C.AttrAt(Attrs(m), 0, OK).Some? }

  predicate IsChallenge(m: Msg) {
    && m.mtype == LOGIN_RES && !IsOk(m)
    && C.AttrAt(Attrs(m), 0, CHALLENGE).Some? && PLAINTEXT <= Attrs(m)[0].val
  }

  /** The state a message of the server is meant to move the client to. */
  function After(st: St, m: Msg): St {
    if m.mtype == LOGIN_RES then (if IsOk(m) then AuthOk else LoginOk)
    else if m.mtype == AUTH_RES then AuthOk
    else if m.mtype == LOGOUT_RES || m.mtype == AUTH_ERR then PreLogin
    else st
  }

  /** The message reaches the client in the state the server sent it for. */
  ghost predicate Timely(st: St, m: Msg) {
    && (m.mtype == LOGIN_RES ==> m.src == 0 && st == PreLogin && (IsOk(m) || IsChallenge(m)))
    && (m.mtype == AUTH_RES ==> m.src == 0 && st == LoginOk && IsOk(m))
    && (m.mtype == LOGOUT_RES ==> m.src == 0 && st == AuthOk && IsOk(m))
    && (m.mtype == AUTH_ERR ==> st == LoginOk)
  }

  ghost predicate Agree(st: St, down: seq<Msg>, srvSt: St)
    decreases |down|
  {
    if down == [] then st == srvSt
    else Timely(st, down[0]) && Agree(After(st, down[0]), down[1..], srvSt)
  }

  lemma {:induction false} AgreeAppend(st: St, down: seq<Msg>, s1: St, m: Msg)
    requires Agree(st, down, s1) && Timely(s1, m)
    ensures Agree(st, down + [m], After(s1, m))
    decreases |down|
  {
    hide After, Timely;
    if down == [] {
      assert (down + [m])[1..] == [];
    } else {
      assert (down + [m])[1..] == down[1..] + [m];
      AgreeAppend(After(st, down[0]), down[1..], s1, m);
    }
  }

  // ----- the one challenge or AUTH in flight -----

  predicate IsAuth(m: Msg) { m.mtype == AUTH_REQ && m.dst == 0 }

  function Challenges(l: seq<Msg>): nat {
    if l == [] then 0 else Challenges(l[..|l| - 1]) + if IsChallenge(l[|l| - 1]) then 1 else 0
  }

  function Auths(l: seq<Msg>): nat {
    if l == [] then 0 else Auths(l[..|l| - 1]) + if IsAuth(l[|l| - 1]) then 1 else 0
  }

  lemma {:induction false} ChallengesConcat(a: seq<Msg>, b: seq<Msg>)
    ensures Challenges(a + b) == Challenges(a) + Challenges(b)
    decreases |b|
  {
    hide IsChallenge;
    if b == [] {
      assert a + b == a;
    } else {
      assert (a + b)[..|a + b| - 1] == a + b[..|b| - 1];
      ChallengesConcat(a, b[..|b| - 1]);
    }
  }

  lemma {:induction false} AuthsConcat(a: seq<Msg>, b: seq<Msg>)
    ensures Auths(a + b) == Auths(a) + Auths(b)
    decreases |b|
  {
    if b == [] {
      assert a + b == a;
    } else {
      assert (a + b)[..|a + b| - 1] == a + b[..|b| - 1];
      AuthsConcat(a, b[..|b| - 1]);
    }
  }

  lemma CountOne(m: Msg)
    ensures Challenges([m]) == (if IsChallenge(m) then 1 else 0) && Auths([m]) == if IsAuth(m) then 1 else 0
  {
    hide IsChallenge, IsAuth;
    assert [m][..0] == [];
  }

  // ----- pending requests -----

  type Key = (u64, u16)

  function ReqKey(m: Msg)
    : multiset<Key> { if IsReq(m.mtype) && m.dst == 0 then multiset{(m.trf, ToRes(m.mtype))} else multiset{} }

  /** Requests to the server that are on their way. */
  function ReqKeys(l: seq<Msg>): multiset<Key> {
    if l == [] then multiset{} else ReqKeys(l[..|l| - 1]) + ReqKey(l[|l| - 1])
  }

  function ResKey(m: Msg)
    : multiset<Key> { if IsRes(m.mtype) && m.src == 0 then multiset{(m.trf, m.mtype)} else multiset{} }

  /** Responses of the server that are on their way. */
  function ResKeys(l: seq<Msg>): multiset<Key> {
    if l == [] then multiset{} else ResKeys(l[..|l| - 1]) + ResKey(l[|l| - 1])
  }

  function PendKey(m: Msg): multiset<Key> { if m.dst == 0 then multiset{(m.trf, ToRes(m.mtype))} else multiset{} }

  function PendKeys(l: seq<Msg>): multiset<Key> {
    if l == [] then multiset{} else PendKey(l[0]) + PendKeys(l[1..])
  }

  lemma {:induction false} ReqConcat(a: seq<Msg>, b: seq<Msg>)
    ensures ReqKeys(a + b) == ReqKeys(a) + ReqKeys(b)
    decreases |b|
  {
    hide ReqKey;
    if b == [] {
      assert a + b == a;
    } else {
      assert (a + b)[..|a + b| - 1] == a + b[..|b| - 1];
      ReqConcat(a, b[..|b| - 1]);
    }
  }

  lemma {:induction false} ResConcat(a: seq<Msg>, b: seq<Msg>)
    ensures ResKeys(a + b) == ResKeys(a) + ResKeys(b)
    decreases |b|
  {
    hide ResKey;
    if b == [] {
      assert a + b == a;
    } else {
      assert (a + b)[..|a + b| - 1] == a + b[..|b| - 1];
      ResConcat(a, b[..|b| - 1]);
    }
  }

  lemma KeysOne(m: Msg)
    ensures ReqKeys([m]) == ReqKey(m) && ResKeys([m]) == ResKey(m)
  {
    hide ReqKey, ResKey;
    assert [m][..0] == [];
  }

  lemma {:induction false} PendRemove(l: seq<Msg>, k: nat)
    requires k < |l|
    ensures PendKeys(l) == PendKey(l[k]) + PendKeys(l[..k] + l[k + 1..])
  {
    hide PendKey;
    var r := l[..k] + l[k + 1..];
    if k == 0 {
      assert r == l[1..];
    } else {
      PendRemove(l[1..], k - 1);
      assert r[0] == l[0] && r[1..] == l[1..][..k - 1] + l[1..][k..];
    }
  }

  lemma {:induction false} PendFound(l: seq<Msg>, m: Msg)
    requires m.src == 0
    ensures C.FindPending(l, m) < |l| <==> (m.trf, m.mtype) in PendKeys(l)
  {
    if l != [] { PendFound(l[1..], m); }
  }

  // ----- the server's replies to this client -----

  lemma OkAttrs(m: Msg, env: Env)
    ensures IsOk(ServerSpec.Ok(m, env))
  {
    hide EncAttr, Tlv;
    var a, b := Attr(OK, []), Attr(NOTICE, env.text + [0]);
    TlvOfEncAttr(a, EncAttr(b));
    assert ServerSpec.Ok(m, env).pay == EncAttr(a) + EncAttr(b);
  }

  lemma ChallengeAttrs(m: Msg, env: Env)
    requires m.mtype == LOGIN_REQ
    ensures IsChallenge(AddAttr(Response(m, env.ts), CHALLENGE, PLAINTEXT + [0]))
  {
    hide EncAttr, Tlv;
    var a := Attr(CHALLENGE, PLAINTEXT + [0]);
    TlvOfEncAttr(a, []);
    assert EncAttr(a) + [] == EncAttr(a);
    assert AddAttr(Response(m, env.ts), CHALLENGE, PLAINTEXT + [0]).pay == EncAttr(a);
  }

  /** What becomes of a message of this client: nothing goes out and the login stays, or one message goes
      out that moves the client as the server has moved. */
  ghost predicate Reply(st: St, m: Msg, out: seq<Msg>, st': St) {
    if out == [] then st' == st && !IsAuth(m)
    else
      && |out| == 1
      && Timely(st, out[0]) && After(st, out[0]) == st'
      && (IsChallenge(out[0]) <==> st' == LoginOk && st != LoginOk)
      && (st == LoginOk && st' != LoginOk <==> IsAuth(m))
      && ResKey(out[0]) <= ReqKey(m)
  }

  /** Messages that change no login state. */
  ghost predicate Harmless(m: Msg) { m.mtype !in {LOGIN_RES, AUTH_RES, LOGOUT_RES, AUTH_ERR} }

  lemma ErrIsHarmless(m: Msg, ec: u64, env: Env)
    requires Family(m.mtype) != AUTH
    ensures Harmless(Err(m, ec, env)) && ResKey(Err(m, ec, env)) == multiset{}
    ensures Err(m, ec, env).mtype == ToErr(m.mtype)
  {
    assert ToErr(m.mtype) == 16 * (m.mtype / 16) + 10;
    assert Family(m.mtype) == 16 * (m.mtype / 16);
  }

  /** Honest clients send AUTH only to the server, and only when challenged. */
  ghost predicate Proper(s: Srv, i: nat, m: Msg)
    requires i < |s.c|
  {
    Family(m.mtype) == AUTH ==> IsAuth(m) && s.c[i].st == LoginOk
  }

  lemma LoginReplies(m: Msg, env: Env)
    requires m.mtype == LOGIN_REQ && m.dst == 0
    ensures Reply(PreLogin, m, [ServerSpec.Ok(m, env)], AuthOk)
    ensures Reply(PreLogin, m, [AddAttr(Response(m, env.ts), CHALLENGE, PLAINTEXT + [0])], LoginOk)
  {
    hide Attrs, EncAttr;
    OkAttrs(m, env);
    ChallengeAttrs(m, env);
    hide IsOk;
    OkIsNoChallenge(ServerSpec.Ok(m, env));
  }

  lemma OkIsNoChallenge(m: Msg)
    ensures IsOk(m) ==> !IsChallenge(m)
  {
    hide Attrs;
  }

  lemma LoginReply(s: Srv, i: nat, m: Msg, env: Env)
    requires KeysOk(s) && i < |s.c| && s.c[i].Open() && m.mtype == LOGIN_REQ && m.dst == 0
    ensures var (s', reply) := Login(s, i, m, env);
            reply.Some? && Reply(s.c[i].st, m, [reply.value], s'.c[i].st)
  {
    hide Attrs, EncAttr, GetTempId, NameInUse, First, LookupName, Reply, Err, ServerSpec.Ok, AddAttr, Response, Load;
    ErrReply(s.c[i].st, m, SC_BAD_REQUEST, env);
    ErrReply(s.c[i].st, m, SC_CONFLICT, env);
    LoginReplies(m, env);
    if First(m, USERNAME).Some? {
      AccountNamed(s.db, CStr(First(m, USERNAME).value));
      AccountStored(s.db, CStr(First(m, USERNAME).value));
    }
  }

  lemma AuthReplies(m: Msg, env: Env)
    requires IsAuth(m)
    ensures Reply(LoginOk, m, [ServerSpec.Ok(m, env)], AuthOk)
    ensures forall ec :: Reply(LoginOk, m, [Err(m, ec, env)], PreLogin)
  {
    hide Attrs, EncAttr;
    OkAttrs(m, env);
    hide IsOk;
  }

  lemma AuthReply(s: Srv, i: nat, m: Msg, env: Env)
    requires KeysOk(s) && i < |s.c| && s.c[i].Open() && IsAuth(m) && s.c[i].st == LoginOk
    ensures var (s', reply) := Auth(s, i, m, env);
            reply.Some? && Reply(s.c[i].st, m, [reply.value], s'.c[i].st)
  {
    AuthReplies(m, env);
    hide Attrs, EncAttr, First, CloseDoomed, Reply, Err, ServerSpec.Ok;
    assert s.c[i] in s.c;
    CloseDoomedSpares(s, i, s.c[i].id);
  }

  lemma ErrReply(st: St, m: Msg, ec: u64, env: Env)
    requires Family(m.mtype) != AUTH
    ensures Reply(st, m, [Err(m, ec, env)], st)
  {
    hide Attrs, EncAttr;
    ErrIsHarmless(m, ec, env);
  }

  lemma QuietReply(st: St, m: Msg, r: Msg)
    requires Harmless(r) && ResKey(r) <= ReqKey(m) && !IsAuth(m)
    ensures Reply(st, m, [r], st)
  {
    hide Attrs, EncAttr;
  }

  lemma OtherReply(s: Srv, i: nat, m: Msg, env: Env)
    requires i < |s.c| && m.dst == 0 && m.mtype != LOGIN_REQ && Family(m.mtype) != AUTH
    ensures var (s', reply) := ServerMsg(s, i, m, env);
            Reply(s.c[i].st, m, if reply.Some? then [reply.value] else [], s'.c[i].st)
  {
    hide Attrs, EncAttr, DropEntry, AddEntry, First, EncAttrs, PeerAttrs, Login, Auth, Err, ServerSpec.Ok, Reply;
    hide AddAttr;
    var st := s.c[i].st;
    ErrReply(st, m, SC_FORBIDDEN, env);
    ErrReply(st, m, SC_UNAUTHORIZED, env);
    ErrReply(st, m, SC_BAD_REQUEST, env);
    ErrReply(st, m, SC_LOCKED, env);
    ErrReply(st, m, SC_NOT_FOUND, env);
    ErrReply(st, m, SC_I_AM_A_TEAPOT, env);
    NoReply(st, m);
    if m.mtype in {PING_REQ, REGISTER_REQ, DROP_REQ, PEERLIST_REQ} {
      ResponseKeys(m, env);
      QuietReply(st, m, ServerSpec.Ok(m, env));
      QuietReply(st, m, AddAttr(Response(m, env.ts), OK, []));
      QuietReply(st, m, Response(m, env.ts).(pay := EncAttrs(PeerAttrs(s.c))));
    } else if m.mtype == LOGOUT_REQ {
      LogoutReply(m, env);
    }
  }

  lemma NoReply(st: St, m: Msg)
    requires !IsAuth(m)
    ensures Reply(st, m, [], st)
  {}

  lemma ResponseKeys(m: Msg, env: Env)
    requires m.dst == 0 && m.mtype in {PING_REQ, REGISTER_REQ, DROP_REQ, PEERLIST_REQ}
    ensures forall pay :: var r := Response(m, env.ts).(pay := pay); Harmless(r) && ResKey(r) <= ReqKey(m)
    ensures Harmless(ServerSpec.Ok(m, env)) && ResKey(ServerSpec.Ok(m, env)) <= ReqKey(m)
    ensures var r := AddAttr(Response(m, env.ts), OK, []); Harmless(r) && ResKey(r) <= ReqKey(m)
  {
    hide EncAttr;
  }

  lemma LogoutReply(m: Msg, env: Env)
    requires m.dst == 0 && m.mtype == LOGOUT_REQ
    ensures Reply(AuthOk, m, [ServerSpec.Ok(m, env)], PreLogin)
  {
    hide Attrs, EncAttr;
    OkAttrs(m, env);
    hide IsOk;
  }

  lemma ServerMsgReply(s: Srv, i: nat, m: Msg, env: Env)
    requires KeysOk(s) && i < |s.c| && s.c[i].Open() && m.dst == 0 && Proper(s, i, m)
    ensures var (s', reply) := ServerMsg(s, i, m, env);
            Reply(s.c[i].st, m, if reply.Some? then [reply.value] else [], s'.c[i].st)
  {
    hide KeysOk, Reply, Err, ServerSpec.Ok, AddAttr, Response, Login, Auth, Register, DropAccount, Logout;
    hide Peerlist;
    if m.mtype == LOGIN_REQ {
      LoginReply(s, i, m, env);
    } else if Family(m.mtype) == AUTH {
      AuthReply(s, i, m, env);
    } else {
      OtherReply(s, i, m, env);
    }
  }

  lemma ProperStamped(s: Srv, i: nat, m: Msg)
    requires i < |s.c|
    ensures var m' := Stamp(s.c[i], m);
            m'.mtype == m.mtype && m'.dst == m.dst && ReqKey(m') == ReqKey(m) && (IsAuth(m') <==> IsAuth(m))
  {}

  /** An authenticated slot has an id of its own, which the server stamps on what it forwards. */
  predicate Numbered(c: Client) { c.Open() && c.st == AuthOk ==> c.id != 0 }

  /** A message of this client, on its own slot. */
  lemma OwnMessage(s: Srv, i: nat, m: Msg, env: Env) returns (out: seq<Msg>)
    requires KeysOk(s) && i < |s.c| && s.c[i].Open() && Numbered(s.c[i]) && Proper(s, i, m)
    ensures var x, y := s.c[i], ProcessMsg(s, i, m, env).c[i];
            && y.Open() && y.fd == x.fd && y.rbuf == x.rbuf && y.tx == Tx(x.tx.q + out, x.tx.off)
            && Reply(x.st, m, out, y.st)
  {
    hide KeysOk, Reply, ServerMsg, CloseDoomed, Err;
    var x, m' := s.c[i], Stamp(s.c[i], m);
    ProperStamped(s, i, m);
    var (s', reply) := Dispatch(s, i, m', env);
    if m.dst == 0 {
      ServerMsgReply(s, i, m', env);
      ServerMsgRelabels(s, i, m', env);
      CloseDoomedSpares(s, i, x.id);
      out := if reply.Some? then [reply.value] else [];
      ReplyOfStamped(x, m, out, s'.c[i].st);
    } else {
      OutsideReply(s, i, m, env);
      var k := FindPeer(s.c, m.dst);
      if m.dst != BROADCAST && x.st == AuthOk && k == i && Forwardable(m.mtype) {
        out := [m'];
        ForwardedToSelf(s, i, m);
      } else {
        out := if reply.Some? then [reply.value] else [];
      }
    }
    if out == [] { assert x.tx.q + out == x.tx.q; }
  }

  lemma ReplyOfStamped(x: Client, m: Msg, out: seq<Msg>, st': St)
    requires Reply(x.st, Stamp(x, m), out, st')
    ensures Reply(x.st, m, out, st')
  {
    hide IsChallenge, Timely, After;
  }

  /** Broadcasts and messages to peers are answered with an error at most. */
  lemma OutsideReply(s: Srv, i: nat, m: Msg, env: Env)
    requires i < |s.c| && m.dst != 0 && Family(m.mtype) != AUTH
    ensures var (s', reply) := Dispatch(s, i, Stamp(s.c[i], m), env);
            && s'.c[i].st == s.c[i].st
            && Reply(s.c[i].st, m, if reply.Some? then [reply.value] else [], s.c[i].st)
  {
    hide Reply, Err;
    var x, m' := s.c[i], Stamp(s.c[i], m);
    NoReply(x.st, m);
    ErrReply(x.st, m', SC_FORBIDDEN, env); ReplyOfStamped(x, m, [Err(m', SC_FORBIDDEN, env)], x.st);
    ErrReply(x.st, m', SC_NOT_IMPLEMENTED, env); ReplyOfStamped(x, m, [Err(m', SC_NOT_IMPLEMENTED, env)], x.st);
    ErrReply(x.st, m', SC_MISDIRECTED_REQUEST, env); ReplyOfStamped(x, m, [Err(m', SC_MISDIRECTED_REQUEST, env)], x.st);
    ErrReply(x.st, m', SC_BAD_REQUEST, env); ReplyOfStamped(x, m, [Err(m', SC_BAD_REQUEST, env)], x.st);
  }

  lemma ForwardedToSelf(s: Srv, i: nat, m: Msg)
    requires i < |s.c| && s.c[i].Peer() && Numbered(s.c[i]) && Forwardable(m.mtype) && m.dst != 0
    ensures Reply(s.c[i].st, m, [Stamp(s.c[i], m)], s.c[i].st)
  {
    hide Attrs;
  }

  // ----- everybody else -----

  /** What other connections and housekeeping do to this slot: at most a forwarded message arrives. */
  ghost predicate Bystander(x: Client, y: Client) {
    && y.Open() && y.fd == x.fd && y.st == x.st && (x.rbuf.None? ==> y.rbuf.None?) && y.tx.off == x.tx.off
    && (y.tx.q == x.tx.q
        || exists m :: y.tx.q == x.tx.q + [m] && Forwardable(m.mtype) && m.src != 0)
  }

  lemma OthersMessage(s: Srv, i: nat, m: Msg, env: Env, j: nat)
    requires i < |s.c| && s.c[i].Open() && Numbered(s.c[i]) && j < |s.c| && j != i
    requires ProcessMsg(s, i, m, env).c[j].Open()
    ensures Bystander(s.c[j], ProcessMsg(s, i, m, env).c[j])
  {
    hide ServerMsg, CloseDoomed, Err;
    var m' := Stamp(s.c[i], m);
    if m.dst == 0 {
      ServerMsgRelabels(s, i, m', env);
      CloseDoomedSpares(s, i, s.c[i].id);
    }
  }

  /** The event is not input or output of the connection with descriptor `fd`, nor its end. */
  ghost predicate Elsewhere(s: Srv, e: Event, fd: nat) {
    match e
    case Connect(_, _, _) => true
    case Input(i, _, _, _) => i < |s.c| && s.c[i].fd != fd
    case NoInput(i, _) => i < |s.c| && s.c[i].fd != fd
    case Output(i, _, _) => i < |s.c| && s.c[i].fd != fd
    case NoOutput(i, _) => i < |s.c| && s.c[i].fd != fd
    case Hangup(i) => i < |s.c| && s.c[i].fd != fd
    case Upkeep(_) => true
  }

  lemma FoundFd(s: Srv, lfd: int, fd: nat, j: nat)
    requires FdInv(s, lfd) && j < |s.c| && s.c[j].Open() && s.c[j].fd == fd
    ensures FindFd(s.c, fd) == j
  {
    var k := FindFd(s.c, fd);
    assert forall a, b | 0 <= a < b < |s.c| && s.c[a].Open() && s.c[b].Open() :: s.c[a].fd != s.c[b].fd;
  }

  lemma InputElsewhere(s: Srv, i: nat, now: int, chunk: seq<byte>, env: Env, cfg: Config, j: nat)
    requires i < |s.c| && s.c[i].Open() && Numbered(s.c[i]) && j < |s.c| && j != i
    requires var rx := ForRead(s, i, now, cfg).c[i].rbuf.value; rx.Ok() && 0 < |chunk| <= rx.size - |rx.got|
    requires ReadAt(ForRead(s, i, now, cfg), i, chunk, env).c[j].Open()
    ensures Bystander(s.c[j], ReadAt(ForRead(s, i, now, cfg), i, chunk, env).c[j])
  {
    hide ProcessMsg, Feed;
    var s1 := ForRead(s, i, now, cfg);
    match Feed(s1.c[i].rbuf.value, chunk)
    case Died =>
    case Pending(rx) =>
    case Complete(m) =>
      var s2 := s1.(c := s1.c[i := s1.c[i].(rbuf := None)]);
      OthersMessage(s2, i, m, env, j);
  }

  lemma UpkeepElsewhere(s: Srv, s': Srv, now: int, lfd: int, cfg: Config, fd: nat)
    requires FdInv(s, lfd) && Upkept(s, s', now, lfd, cfg) && FindFd(s'.c, fd) < |s'.c|
    ensures FindFd(s.c, fd) < |s.c| && Bystander(s.c[FindFd(s.c, fd)], s'.c[FindFd(s'.c, fd)])
  {
    hide Survivors;
    var y := s'.c[FindFd(s'.c, fd)];
    SurvivorFds(s.c, now, cfg);
    SurvivorFrom(s.c, now, cfg);
    SurvivorsDistinct(s.c, now, cfg);
    PrefixFds(s'.c, Survivors(s.c, now, cfg));
    assert y in s'.c;
    var j :| 0 <= j < |s.c| && Stays(s.c[j], now, cfg) && y == Resynced(s.c[j], now, cfg);
    FoundFd(s, lfd, fd, j);
  }

  lemma OthersStep(s: Srv, e: Event, s': Srv, lfd: int, cfg: Config, fd: nat)
    requires FdInv(s, lfd) && PeerInv(s) && Step(s, e, s', lfd, cfg) && Elsewhere(s, e, fd) && FdInv(s', lfd)
    requires FindFd(s.c, fd) < |s.c| && FindFd(s'.c, fd) < |s'.c|
    ensures Bystander(s.c[FindFd(s.c, fd)], s'.c[FindFd(s'.c, fd)])
  {
    hide FdInv, PeerInv, Bystander, Upkept, ReadAt, Written;
    var j := FindFd(s.c, fd);
    SameBystander(s.c[j]);
    match e
    case Upkeep(now) => UpkeepElsewhere(s, s', now, lfd, cfg, fd);
    case Input(i, now, chunk, env) =>
      var s1 := ForRead(s, i, now, cfg);
      ReadGains(s, s1, i, chunk, env);
      var j' := FindFd(s'.c, fd);
      assert OnlyGains(s.c[j'], s'.c[j']);
      FoundFd(s, lfd, fd, j');
      Here(s, i);
      InputElsewhere(s, i, now, chunk, env, cfg, j');
    case Connect(fd', nonblock, now) =>
      var k := FindFree(s.c);
      assert k < |s.c| ==> s'.c[j] == s.c[j];
      FoundFd(s', lfd, fd, j);
    case NoInput(i, now) => assert s'.c[j] == s.c[j]; FoundFd(s', lfd, fd, j);
    case Output(i, n, now) => assert s'.c[j] == s.c[j]; FoundFd(s', lfd, fd, j);
    case NoOutput(i, now) => assert s'.c[j] == s.c[j]; FoundFd(s', lfd, fd, j);
    case Hangup(i) => assert s'.c[j] == s.c[j]; FoundFd(s', lfd, fd, j);
  }

  lemma SameBystander(x: Client)
    requires x.Open()
    ensures Bystander(x, x)
  {}
}
