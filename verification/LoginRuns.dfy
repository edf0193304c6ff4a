/** The login state of a connection in every reachable state of client, server and messages in flight. */
module LoginRuns {
  import opened Bytes
  import opened Message
  import opened Channel
  import opened UserFile
  import opened UserDb
  import opened ServerSpec
  import opened ServerInv
  import opened ServerIds
  import opened ServerPeers
  import opened ServerRuns
  import opened ServerKeys
  import opened LoginAgreement
  import opened ClientLimits
  import C = ClientSpec
  import I = ClientIo

  // ----- the client -----

  /** A client reply that is no AUTH request unless a challenge asked for it. */
  ghost predicate ProperReply(m: Msg, reply: Option<Msg>) {
    match reply
    case None => !IsChallenge(m)
    case Some(r) => (Family(r.mtype) == AUTH ==> IsAuth(r)) && (IsAuth(r) <==> IsChallenge(m))
  }

  lemma TransferReplies(c: C.Clt, m: Msg, env: C.Env)
    requires m.mtype in {OFFER_REQ, GETFILE_REQ, OFFER_RES, GETFILE_RES}
    ensures var (c', reply) := C.Handle(c, m, env);
            c'.st == c.st && c'.pending == c.pending && ProperReply(m, reply)
  {
    hide Attrs, EncAttr, C.ReadOffer, C.OfferRead, C.DownloadWrite, C.FindTransfer, C.Renamed, U64Of;
  }

  lemma HandleTimely(c: C.Clt, m: Msg, env: C.Env)
    requires Timely(c.st, m)
    ensures var (c', reply) := C.Handle(c, m, env);
            c'.pending == c.pending && (c'.dead || (c'.st == After(c.st, m) && ProperReply(m, reply)))
  {
    hide Attrs, EncAttr, C.OnOffer, C.OnGetFile, C.OnFileData, C.OnOfferRes;
    if m.mtype in {OFFER_REQ, GETFILE_REQ, OFFER_RES, GETFILE_RES} {
      TransferReplies(c, m, env);
    }
  }

  lemma ReceiveTimely(c: C.Clt, m: Msg, env: C.Env)
    requires Timely(c.st, m) && ResKey(m) <= PendKeys(c.pending)
    ensures var (c', reply) := C.Receive(c, m, env);
            && (c'.dead || (c'.st == After(c.st, m) && ProperReply(m, reply)))
            && PendKeys(c.pending) - ResKey(m) <= PendKeys(c'.pending)
  {
    hide C.Handle, IsChallenge, IsOk, ProperReply, Timely, After, PendKeys, ResKey;
    HandleTimely(c, m, env);
    if IsRes(m.mtype) {
      var k := C.FindPending(c.pending, m);
      PendingFound(c.pending, m);
      if k < |c.pending| {
        PendingConsumed(c.pending, m, k);
        HandleTimely(c.(pending := c.pending[..k] + c.pending[k + 1..]), m, env);
      } else {
        NotFound(c.st, m);
      }
    }
  }

  lemma PendingFound(pending: seq<Msg>, m: Msg)
    requires ResKey(m) <= PendKeys(pending) && IsRes(m.mtype)
    ensures m.src == 0 ==> C.FindPending(pending, m) < |pending|
  {
    hide PendKeys;
    if m.src == 0 {
      PendFound(pending, m);
      assert (m.trf, m.mtype) in ResKey(m);
    }
  }

  lemma PendingConsumed(pending: seq<Msg>, m: Msg, k: nat)
    requires k < |pending| && C.Answered(pending[k], m)
    ensures PendKeys(pending) - ResKey(m) <= PendKeys(pending[..k] + pending[k + 1..])
  {
    hide PendKeys;
    PendRemove(pending, k);
  }

  lemma NotFound(st: St, m: Msg)
    requires Timely(st, m) && IsRes(m.mtype) && m.src != 0
    ensures After(st, m) == st && ProperReply(m, None)
  {
    hide Attrs;
  }

  // ----- the system -----

  datatype Act =
    | User(clt: C.Clt, out: seq<Msg>)
    | ClientWrite
    | ServerRead(env: Env)
    | ServerWrite(now: int)
    | ClientRead(cenv: C.Env)
    | Others(e: Event)

  /** What the user of the client and its housekeeping may do, at any time: offer, accept and remove, clear away
      entries, change files and password, end the process, and send anything but messages of the AUTH family.
      Only the login state is none of their business, and requests to the server are not given up. */
  ghost predicate UserAct(c: C.Clt, out: seq<Msg>, c': C.Clt) {
    && c'.st == c.st && c'.queue == c.queue + out && (forall m <- out :: Family(m.mtype) != AUTH)
    && PendKeys(c.pending) <= PendKeys(c'.pending)
  }

  /** One step, as long as neither side has ended.  Requests and replies travel in order; other connections and
      housekeeping may do anything; any save may fail. */
  ghost predicate SysStep(s: Sys, a: Act, s': Sys, fd: nat, lfd: int, cfg: Config) {
    var i := FindFd(s.srv.c, fd);
    && i < |s.srv.c| && !s.srv.dead && !s.clt.dead
    && match a
       case User(clt, out) => UserAct(s.clt, out, clt) && s' == s.(clt := clt)
       case ClientWrite =>
         s.clt.queue != [] && s' == s.(clt := C.Dequeue(s.clt), up := s.up + [s.clt.queue[0]])
       case ServerRead(env) =>
         s.up != [] && s' == s.(srv := ProcessMsg(s.srv, i, s.up[0], env), up := s.up[1..])
       case ServerWrite(now) =>
         var tx := s.srv.c[i].tx;
         && tx.q != [] && tx.off == 0
         && s' == s.(srv := WriteAt(s.srv, i, MSG_HDR_SIZE + |tx.q[0].pay|, now), down := s.down + [tx.q[0]])
       case ClientRead(env) =>
         s.down != [] && s' == s.(clt := C.ProcessSrvMsg(s.clt, s.down[0], env), down := s.down[1..])
       case Others(e) =>
         && Step(s.srv, e, s'.srv, lfd, cfg) && Elsewhere(s.srv, e, fd)
         && FindFd(s'.srv.c, fd) < |s'.srv.c| && s' == s.(srv := s'.srv)
  }

  function Slot(s: Sys, fd: nat): Client
    requires FindFd(s.srv.c, fd) < |s.srv.c|
  {
    s.srv.c[FindFd(s.srv.c, fd)]
  }

  /** Everything on its way to the client, and to the server. */
  function Down(s: Sys, fd: nat): seq<Msg>
    requires FindFd(s.srv.c, fd) < |s.srv.c|
  {
    s.down + Slot(s, fd).tx.q
  }

  function Up(s: Sys): seq<Msg> { s.up + s.clt.queue }

  function Token(st: St): nat { if st == LoginOk then 1 else 0 }

  /** The invariant of the conversation, in terms of what is on its way. */
  ghost predicate Talk(cst: St, down: seq<Msg>, st: St, upAll: seq<Msg>, up: seq<Msg>, pending: seq<Msg>) {
    && Agree(cst, down, st)
    && Challenges(down) + Auths(upAll) == Token(st)
    && (forall m <- upAll :: Family(m.mtype) == AUTH ==> IsAuth(m))
    && ReqKeys(up) + ResKeys(down) <= PendKeys(pending)
  }

  /** The counter has not wrapped, and every account has a key with the prefix, in memory or, while memory is
      empty, in the file. */
  ghost predicate Sound(s: Srv) { Unwrapped(s) && GoodKeys(Load(s.db).list) }

  ghost predicate SysInv(s: Sys, fd: nat, lfd: int) {
    && FdInv(s.srv, lfd) && PeerInv(s.srv) && Armed(s.srv.c)
    && FindFd(s.srv.c, fd) < |s.srv.c|
    && Slot(s, fd).tx.off == 0 && Slot(s, fd).rbuf.None?
    && Talk(s.clt.st, Down(s, fd), Slot(s, fd).st, Up(s), s.up, s.clt.pending)
  }

  // ----- each step -----

  lemma {:induction false} NoAuths(out: seq<Msg>)
    requires forall m <- out :: Family(m.mtype) != AUTH
    ensures Auths(out) == 0
  {
    if out != [] {
      NoAuths(out[..|out| - 1]);
      assert out[|out| - 1] in out;
      assert Family(AUTH_REQ) == AUTH;
    }
    hide Family;
  }

  lemma TalkSend(cst: St, down: seq<Msg>, st: St, upAll: seq<Msg>, up: seq<Msg>, pending: seq<Msg>, out: seq<Msg>,
          pending': seq<Msg>)
    requires Talk(cst, down, st, upAll, up, pending) && (forall m <- out :: Family(m.mtype) != AUTH)
    requires PendKeys(pending) <= PendKeys(pending')
    ensures Talk(cst, down, st, upAll + out, up, pending')
  {
    hide Agree, Challenges, ReqKeys, ResKeys, PendKeys, Auths;
    AuthsConcat(upAll, out);
    NoAuths(out);
  }

  lemma TalkWrite(cst: St, down: seq<Msg>, st: St, upAll: seq<Msg>, up: seq<Msg>, pending: seq<Msg>, m: Msg)
    requires Talk(cst, down, st, upAll, up, pending)
    ensures Talk(cst, down, st, upAll, up + [m], if IsReq(m.mtype) then [m] + pending else pending)
  {
    hide Agree, Challenges, Auths, ResKeys;
    ReqConcat(up, [m]);
    KeysOne(m);
    assert ([m] + pending)[1..] == pending;
  }

  /** The server has consumed the first message and sent at most one. */
  lemma TalkServer(cst: St, down: seq<Msg>, st: St, upAll: seq<Msg>, up: seq<Msg>, pending: seq<Msg>, out: seq<Msg>,
          st': St)
    requires Talk(cst, down, st, upAll, up, pending) && up != [] && upAll != [] && upAll[0] == up[0]
    requires Reply(st, up[0], out, st')
    ensures Talk(cst, down + out, st', upAll[1..], up[1..], pending)
  {
    hide Agree, IsChallenge, IsAuth, ReqKeys, ResKeys, PendKeys, Challenges, Auths, ReqKey, ResKey, Timely, After;
    var m := up[0];
    AuthsConcat([m], upAll[1..]); CountOne(m);
    assert [m] + upAll[1..] == upAll;
    ReqConcat([m], up[1..]); KeysOne(m);
    assert [m] + up[1..] == up;
    if out == [] {
      assert down + out == down;
    } else {
      var r := out[0];
      assert out == [r];
      AgreeAppend(cst, down, st, r);
      ChallengesConcat(down, [r]); CountOne(r);
      ResConcat(down, [r]); KeysOne(r);
    }
  }

  /** The client has consumed the first message on its way down. */
  lemma TalkClient(cst: St, down: seq<Msg>, st: St, upAll: seq<Msg>, up: seq<Msg>, pending: seq<Msg>,
          reply: Option<Msg>, pending': seq<Msg>)
    requires Talk(cst, down, st, upAll, up, pending) && down != [] && ProperReply(down[0], reply)
    requires PendKeys(pending) - ResKey(down[0]) <= PendKeys(pending')
    ensures Talk(After(cst, down[0]), down[1..], st, if reply.Some? then upAll + [reply.value] else upAll, up, pending')
  {
    hide IsChallenge, IsAuth, ReqKeys, ResKeys, PendKeys, Challenges, Auths, ReqKey, ResKey, Timely, After;
    var m := down[0];
    ChallengesConcat([m], down[1..]); CountOne(m);
    ResConcat([m], down[1..]); KeysOne(m);
    assert [m] + down[1..] == down;
    if reply.Some? {
      AuthsConcat(upAll, [reply.value]); CountOne(reply.value);
    }
  }

  lemma TalkForwarded(cst: St, down: seq<Msg>, st: St, upAll: seq<Msg>, up: seq<Msg>, pending: seq<Msg>, m: Msg)
    requires Talk(cst, down, st, upAll, up, pending) && Forwardable(m.mtype) && m.src != 0
    ensures Talk(cst, down + [m], st, upAll, up, pending)
  {
    hide Agree, ReqKeys, ResKeys, PendKeys, Challenges, Auths, Attrs;
    AgreeAppend(cst, down, st, m);
    ChallengesConcat(down, [m]); CountOne(m);
    ResConcat(down, [m]); KeysOne(m);
  }

  lemma UserKeeps(s: Sys, out: seq<Msg>, clt: C.Clt, fd: nat, lfd: int)
    requires SysInv(s, fd, lfd) && UserAct(s.clt, out, clt)
    ensures SysInv(s.(clt := clt), fd, lfd)
  {
    hide FdInv, PeerInv, Armed, Talk, PendKeys;
    TalkSend(s.clt.st, Down(s, fd), Slot(s, fd).st, Up(s), s.up, s.clt.pending, out, clt.pending);
    Assoc(s.up, s.clt.queue, out);
  }

  lemma ClientWriteKeeps(s: Sys, fd: nat, lfd: int)
    requires SysInv(s, fd, lfd) && s.clt.queue != []
    ensures SysInv(s.(clt := C.Dequeue(s.clt), up := s.up + [s.clt.queue[0]]), fd, lfd)
  {
    hide FdInv, PeerInv, Armed, Talk;
    var m := s.clt.queue[0];
    TalkWrite(s.clt.st, Down(s, fd), Slot(s, fd).st, Up(s), s.up, s.clt.pending, m);
    assert s.up + s.clt.queue == s.up + [m] + s.clt.queue[1..];
  }

  /** The server's side of a message of this connection. */
  lemma ServerTakes(s: Srv, m: Msg, env: Env, fd: nat, lfd: int) returns (out: seq<Msg>)
    requires FdInv(s, lfd) && PeerInv(s) && Armed(s.c) && Sound(s)
    requires FindFd(s.c, fd) < |s.c| && Proper(s, FindFd(s.c, fd), m)
    requires Sound(ProcessMsg(s, FindFd(s.c, fd), m, env))
    ensures var s' := ProcessMsg(s, FindFd(s.c, fd), m, env);
            && FdInv(s', lfd) && PeerInv(s') && Armed(s'.c) && FindFd(s'.c, fd) < |s'.c|
            && var x, y := s.c[FindFd(s.c, fd)], s'.c[FindFd(s'.c, fd)];
               y.rbuf == x.rbuf && y.tx == Tx(x.tx.q + out, x.tx.off) && Reply(x.st, m, out, y.st)
  {
    hide FdInv, PeerInv, Armed, ProcessMsg, Reply, Proper;
    hide Unwrapped, GoodKeys, Load;
    var i := FindFd(s.c, fd);
    Here(s, i);
    out := OwnMessage(s, i, m, env);
    ProcessKeepsFds(s, i, m, env, lfd);
    ProcessPeers(s, i, m, env);
    ProcessKeepsArmed(s, i, m, env);
    FoundFd(ProcessMsg(s, i, m, env), lfd, fd, i);
  }

  /** The conversation after the server's slot has changed. */
  lemma SlotMoved(s: Sys, srv': Srv, out: seq<Msg>, fd: nat, lfd: int)
    requires SysInv(s, fd, lfd) && s.up != []
    requires FdInv(srv', lfd) && PeerInv(srv') && Armed(srv'.c) && FindFd(srv'.c, fd) < |srv'.c|
    requires var x, y := Slot(s, fd), srv'.c[FindFd(srv'.c, fd)];
             y.rbuf == x.rbuf && y.tx == Tx(x.tx.q + out, x.tx.off) && Reply(x.st, s.up[0], out, y.st)
    ensures SysInv(s.(srv := srv', up := s.up[1..]), fd, lfd)
  {
    hide FdInv, PeerInv, Armed, Talk, Reply, FindFd;
    TalkServer(s.clt.st, Down(s, fd), Slot(s, fd).st, Up(s), s.up, s.clt.pending, out, srv'.c[FindFd(srv'.c, fd)].st);
    Assoc(s.down, Slot(s, fd).tx.q, out);
    assert (s.up + s.clt.queue)[1..] == s.up[1..] + s.clt.queue;
  }

  lemma ServerReadKeeps(s: Sys, env: Env, fd: nat, lfd: int)
    requires SysInv(s, fd, lfd) && s.up != [] && Sound(s.srv)
    requires Sound(ProcessMsg(s.srv, FindFd(s.srv.c, fd), s.up[0], env))
    ensures SysInv(s.(srv := ProcessMsg(s.srv, FindFd(s.srv.c, fd), s.up[0], env), up := s.up[1..]), fd, lfd)
  {
    hide FdInv, PeerInv, Armed, ProcessMsg, Reply, Talk, Sound;
    FirstIsProper(s, fd, lfd);
    hide Proper;
    var out := ServerTakes(s.srv, s.up[0], env, fd, lfd);
    hide FindFd;
    SlotMoved(s, ProcessMsg(s.srv, FindFd(s.srv.c, fd), s.up[0], env), out, fd, lfd);
    hide SysInv;
  }

  lemma FirstIsProper(s: Sys, fd: nat, lfd: int)
    requires SysInv(s, fd, lfd) && s.up != []
    ensures Proper(s.srv, FindFd(s.srv.c, fd), s.up[0])
  {
    hide FdInv, PeerInv, Armed, Agree, IsChallenge;
    var m, l := s.up[0], Up(s);
    assert l[0] == m && m in l;
    AuthsConcat([m], l[1..]); CountOne(m);
    assert [m] + l[1..] == l;
  }

  lemma ServerWriteKeeps(s: Sys, now: int, fd: nat, lfd: int)
    requires SysInv(s, fd, lfd) && Slot(s, fd).tx.q != []
    ensures var q := Slot(s, fd).tx.q;
            var srv' := WriteAt(s.srv, FindFd(s.srv.c, fd), MSG_HDR_SIZE + |q[0].pay|, now);
            SysInv(s.(srv := srv', down := s.down + [q[0]]), fd, lfd)
  {
    hide FdInv, PeerInv, Armed, Talk;
    var i := FindFd(s.srv.c, fd);
    var q := Slot(s, fd).tx.q;
    SlotQueueOk(s.srv, i, lfd);
    var srv' := WriteAt(s.srv, i, MSG_HDR_SIZE + |q[0].pay|, now);
    WriteKeepsFds(s.srv, i, MSG_HDR_SIZE + |q[0].pay|, now, lfd);
    OneSlotKept(s.srv, srv', i);
    WriteKeepsArmed(s.srv, i, MSG_HDR_SIZE + |q[0].pay|, now);
    FoundFd(srv', lfd, fd, i);
    assert s.down + q == s.down + [q[0]] + q[1..];
  }

  lemma WriteKeepsArmed(s: Srv, i: nat, n: nat, now: int)
    requires Armed(s.c) && i < |s.c| && s.c[i].tx.Ok() && s.c[i].tx.q != []
    requires 0 < n <= MSG_HDR_SIZE + |s.c[i].tx.q[0].pay| - s.c[i].tx.off
    ensures Armed(WriteAt(s, i, n, now).c)
  {
    hide Written;
    assert s.c[i] in s.c;
  }

  lemma SlotQueueOk(s: Srv, i: nat, lfd: int)
    requires FdInv(s, lfd) && i < |s.c| && s.c[i].Open()
    ensures s.c[i].tx.Ok()
  {}

  lemma ClientReadKeeps(s: Sys, env: C.Env, fd: nat, lfd: int)
    requires SysInv(s, fd, lfd) && s.down != []
    ensures var clt := C.ProcessSrvMsg(s.clt, s.down[0], env);
            !clt.dead ==> SysInv(s.(clt := clt, down := s.down[1..]), fd, lfd)
  {
    hide FdInv, PeerInv, Armed, C.Receive, PendKeys, ResKey, ProperReply, After, Timely, FindFd, IsRes;
    var m, d := s.down[0], Down(s, fd);
    assert d[0] == m && d[1..] == s.down[1..] + Slot(s, fd).tx.q;
    FirstIsTimely(s.clt.st, d, Slot(s, fd).st, Up(s), s.up, s.clt.pending);
    hide Talk;
    ReceiveTimely(s.clt, m, env);
    var (c', reply) := C.Receive(s.clt, m, env);
    I.ReceiveQueue(s.clt, m, env);
    if !c'.dead {
      TalkClient(s.clt.st, d, Slot(s, fd).st, Up(s), s.up, s.clt.pending, reply, c'.pending);
      if reply.Some? { Assoc(s.up, s.clt.queue, [reply.value]); }
    }
  }

  lemma FirstIsTimely(cst: St, down: seq<Msg>, st: St, upAll: seq<Msg>, up: seq<Msg>, pending: seq<Msg>)
    requires Talk(cst, down, st, upAll, up, pending) && down != []
    ensures Timely(cst, down[0]) && ResKey(down[0]) <= PendKeys(pending)
  {
    hide ResKey, ReqKeys, PendKeys, Timely, Challenges, Auths, ResKeys;
    ResConcat([down[0]], down[1..]); KeysOne(down[0]);
    assert [down[0]] + down[1..] == down;
  }

  lemma OthersKeep(s: Sys, e: Event, srv': Srv, fd: nat, lfd: int, cfg: Config)
    requires SysInv(s, fd, lfd) && Sound(s.srv) && Sound(srv')
    requires Step(s.srv, e, srv', lfd, cfg) && Elsewhere(s.srv, e, fd) && FindFd(srv'.c, fd) < |srv'.c|
    ensures SysInv(s.(srv := srv'), fd, lfd)
  {
    hide FdInv, PeerInv, Armed, Talk, Step, Unwrapped, GoodKeys, Load;
    StepKeepsFds(s.srv, e, srv', lfd, cfg);
    StepKeepsArmed(s.srv, e, srv', lfd, cfg);
    StepKeepsPeers(s.srv, e, srv', lfd, cfg);
    OthersStep(s.srv, e, srv', lfd, cfg, fd);
    var x, y := Slot(s, fd), srv'.c[FindFd(srv'.c, fd)];
    if y.tx.q != x.tx.q {
      var m :| y.tx.q == x.tx.q + [m] && Forwardable(m.mtype) && m.src != 0;
      TalkForwarded(s.clt.st, Down(s, fd), x.st, Up(s), s.up, s.clt.pending, m);
      Assoc(s.down, x.tx.q, [m]);
    }
  }

  lemma SysStepKeeps(s: Sys, a: Act, s': Sys, fd: nat, lfd: int, cfg: Config)
    requires SysInv(s, fd, lfd) && Sound(s.srv) && Sound(s'.srv) && SysStep(s, a, s', fd, lfd, cfg)
    ensures !s'.clt.dead ==> SysInv(s', fd, lfd)
  {
    hide SysInv, ProcessMsg, C.ProcessSrvMsg, C.Dequeue, Step, Sound, UserAct;
    match a
    case User(clt, out) => UserKeeps(s, out, clt, fd, lfd);
    case ClientWrite => ClientWriteKeeps(s, fd, lfd);
    case ServerRead(env) => ServerReadKeeps(s, env, fd, lfd);
    case ServerWrite(now) => ServerWriteKeeps(s, now, fd, lfd);
    case ClientRead(env) => ClientReadKeeps(s, env, fd, lfd);
    case Others(e) => OthersKeep(s, e, s'.srv, fd, lfd, cfg);
  }

  // ----- runs -----

  ghost predicate SysRun(r: seq<Sys>, acts: seq<Act>, fd: nat, lfd: int, cfg: Config) {
    |r| == |acts| + 1 && forall k | 0 <= k < |acts| :: SysStep(r[k], acts[k], r[k + 1], fd, lfd, cfg)
  }

  /** A connection that has just been accepted, on a server in a reachable state. */
  ghost predicate Connected(s: Sys, fd: nat, lfd: int) {
    && FdInv(s.srv, lfd) && PeerInv(s.srv) && Armed(s.srv.c)
    && FindFd(s.srv.c, fd) < |s.srv.c|
    && Slot(s, fd).st == PreLogin && Slot(s, fd).tx == Tx([], 0) && Slot(s, fd).rbuf.None?
    && s.clt.st == PreLogin && !s.clt.dead && s.clt.queue == [] && s.clt.pending == [] && s.up == [] && s.down == []
  }

  /** The server is sound in every state of the run. */
  ghost predicate SoundRun(r: seq<Sys>) { forall s <- r :: Sound(s.srv) }

  lemma {:induction false} SysRunInv(r: seq<Sys>, acts: seq<Act>, fd: nat, lfd: int, cfg: Config, k: nat)
    requires SysRun(r, acts, fd, lfd, cfg) && Connected(r[0], fd, lfd) && SoundRun(r) && k <= |acts|
    ensures !r[k].clt.dead ==> SysInv(r[k], fd, lfd)
  {
    hide SysStep, FdInv, PeerInv, Armed;
    if k == 0 {
      assert Down(r[0], fd) == [] && Up(r[0]) == [];
    } else {
      hide SysInv, Sound;
      assert r[k - 1] in r && r[k] in r;
      SysRunInv(r, acts, fd, lfd, cfg, k - 1);
      assert SysStep(r[k - 1], acts[k - 1], r[k], fd, lfd, cfg);
      AliveBefore(r[k - 1], acts[k - 1], r[k], fd, lfd, cfg);
      SysStepKeeps(r[k - 1], acts[k - 1], r[k], fd, lfd, cfg);
    }
  }

  lemma AliveBefore(s: Sys, a: Act, s': Sys, fd: nat, lfd: int, cfg: Config)
    requires SysStep(s, a, s', fd, lfd, cfg)
    ensures !s.clt.dead
  {}

  /** The client after it has processed everything on its way; once it has ended it processes nothing more. */
  function Eat(c: C.Clt, down: seq<Msg>, envs: seq<C.Env>): C.Clt
    requires |envs| == |down|
    decreases |down|
  {
    if down == [] || c.dead then c else Eat(C.ProcessSrvMsg(c, down[0], envs[0]), down[1..], envs[1..])
  }

  lemma {:induction false} EatAgrees(c: C.Clt, down: seq<Msg>, envs: seq<C.Env>, st: St)
    requires |envs| == |down| && Agree(c.st, down, st) && ResKeys(down) <= PendKeys(c.pending)
    ensures Eat(c, down, envs).dead || Eat(c, down, envs).st == st
    decreases |down|
  {
    hide Timely, After, ResKey, ResKeys, PendKeys, ProperReply, C.Receive;
    if down != [] && !c.dead {
      var m := down[0];
      ResConcat([m], down[1..]); KeysOne(m);
      assert [m] + down[1..] == down;
      ReceiveTimely(c, m, envs[0]);
      var c' := C.ProcessSrvMsg(c, m, envs[0]);
      if c'.dead {
        EatDead(c', down[1..], envs[1..]);
      } else {
        EatAgrees(c', down[1..], envs[1..], st);
      }
    }
  }

  lemma EatDead(c: C.Clt, down: seq<Msg>, envs: seq<C.Env>)
    requires |envs| == |down| && c.dead
    ensures Eat(c, down, envs) == c
  {}

  /** Login agreement.  In every reachable state of a connection, however LOGIN, AUTH, LOGOUT, REGISTER
      and everything else interleave: once the client has processed what is on its way, in whatever
      circumstances, its login state is the server's, unless it has ended; and exactly one challenge or AUTH
      request is in flight while the server waits for authentication, none otherwise.  It takes that the stored
      keys have the prefix and the counter has not wrapped, but no save needs to succeed. */
  lemma LoginAgreementHolds(r: seq<Sys>, acts: seq<Act>, fd: nat, lfd: int, cfg: Config, k: nat, envs: seq<C.Env>)
    requires SysRun(r, acts, fd, lfd, cfg) && Connected(r[0], fd, lfd) && SoundRun(r)
    requires k <= |acts| && !r[k].clt.dead
    ensures FindFd(r[k].srv.c, fd) < |r[k].srv.c|
    ensures |envs| == |Down(r[k], fd)| ==>
              var c := Eat(r[k].clt, Down(r[k], fd), envs); c.dead || c.st == Slot(r[k], fd).st
    ensures Challenges(Down(r[k], fd)) + Auths(Up(r[k])) == Token(Slot(r[k], fd).st)
  {
    hide FdInv, PeerInv, Armed, SysStep, Connected, Sound;
    SysRunInv(r, acts, fd, lfd, cfg, k);
    hide Agree, Challenges, Auths, ReqKeys, ResKeys, PendKeys;
    if |envs| == |Down(r[k], fd)| {
      EatAgrees(r[k].clt, Down(r[k], fd), envs, Slot(r[k], fd).st);
    }
  }

  /** Every response of the server on its way to the client has a pending request of its own; so the next one to
      arrive is taken, and not dropped as an answer to nothing. */
  lemma ServerResponsesMatch(r: seq<Sys>, acts: seq<Act>, fd: nat, lfd: int, cfg: Config, k: nat)
    requires SysRun(r, acts, fd, lfd, cfg) && Connected(r[0], fd, lfd) && SoundRun(r)
    requires k <= |acts| && !r[k].clt.dead
    ensures FindFd(r[k].srv.c, fd) < |r[k].srv.c|
    ensures ResKeys(Down(r[k], fd)) <= PendKeys(r[k].clt.pending)
    ensures var l := Down(r[k], fd);
            l != [] && IsRes(l[0].mtype) && l[0].src == 0
            ==> C.FindPending(r[k].clt.pending, l[0]) < |r[k].clt.pending|
  {
    hide FdInv, PeerInv, Armed, SysStep, Connected, Sound;
    SysRunInv(r, acts, fd, lfd, cfg, k);
    var c, l := r[k].clt, Down(r[k], fd);
    if l != [] && IsRes(l[0].mtype) && l[0].src == 0 {
      FirstIsTimely(c.st, l, Slot(r[k], fd).st, Up(r[k]), r[k].up, c.pending);
      PendingFound(c.pending, l[0]);
    }
    hide Agree, Challenges, Auths, ReqKeys, ResKeys, PendKeys, IsRes, ResKey;
  }

  // ----- what these runs cover -----

  /** The commands that concern transfers, and housekeeping that finds no request to the server timed out, are
      acts of the user. */
  lemma CommandsAreActs(c: C.Clt, rid: u64, oid: u64, dest: u64, name: seq<byte>, base: seq<byte>, trf: u64,
          mask: I.Mask, respTimeout: int, offerTimeout: int, env: C.Env)
    requires forall m <- c.pending | m.dst == 0 :: m.ts / I.NS_PER_S + respTimeout >= env.now
    ensures var (c', req) := I.OfferFile(c, dest, name, base, oid, trf, env); UserAct(c, Out(req), C.Queued(c', req))
    ensures var (c', req) := C.AcceptOffer(c, rid, oid, env); UserAct(c, Out(req), C.Queued(c', req))
    ensures UserAct(c, [], c.(transfers := I.Removed(c.transfers, mask)))
    ensures var (c', ping) := I.AfterUpkeep(c, respTimeout, offerTimeout, trf, env);
            UserAct(c, Out(ping), C.Queued(c', ping))
  {
    hide C.DownloadResume, C.DownloadWrite, EncAttr, PendKeys, Msg.Fits, C.FindTransfer, I.Kept, I.Removed;
    assert c.queue + [] == c.queue;
    KeptKeys(c.pending, respTimeout, env.now);
  }

  function Out(m: Option<Msg>): seq<Msg> { if m.Some? then [m.value] else [] }

  lemma {:induction false} PendSnoc(l: seq<Msg>, m: Msg)
    ensures PendKeys(l + [m]) == PendKeys(l) + PendKey(m)
  {
    hide PendKey;
    if l == [] {
      assert l + [m] == [m];
    } else {
      assert (l + [m])[1..] == l[1..] + [m];
      PendSnoc(l[1..], m);
    }
  }

  lemma {:induction false} KeptKeys(l: seq<Msg>, timeout: int, now: int)
    requires forall m <- l | m.dst == 0 :: m.ts / I.NS_PER_S + timeout >= now
    ensures PendKeys(I.KeptPending(l, timeout, now)) == PendKeys(l)
  {
    if l != [] {
      var front, m := l[..|l| - 1], l[|l| - 1];
      assert l == front + [m];
      KeptKeys(front, timeout, now);
      PendSnoc(front, m);
      PendSnoc(I.KeptPending(front, timeout, now), m);
      hide PendKeys;
    }
  }

  /** A connection that a server has just accepted, in any run of it that is sound, starts such a run. */
  lemma AcceptedIsConnected(r: seq<Srv>, es: seq<Event>, lfd: int, cfg: Config, file: Option<seq<byte>>, k: nat,
          clt: C.Clt)
    requires ServerSpec.Run(r, es, lfd, cfg) && Initial(r[0], file, lfd) && (forall s <- r :: Sound(s)) && k < |es|
    requires es[k].Connect? && r[k + 1] != r[k]
    requires clt.st == PreLogin && !clt.dead && clt.queue == [] && clt.pending == []
    ensures Connected(Sys(r[k + 1], clt, [], []), es[k].fd, lfd)
  {
    hide Step, PeerInv, FdInv, Armed, Unwrapped, Load;
    assert r[0] in r;
    InitialPeers(r[0], file, lfd);
    RunFds(r, es, lfd, cfg, k + 1);
    RunPeers(r, es, lfd, cfg, k + 1);
    RunArmed(r, es, lfd, cfg, k + 1);
    NewSlot(r[k], es[k], r[k + 1], lfd, cfg);
  }

  lemma {:induction false} RunArmed(r: seq<Srv>, es: seq<Event>, lfd: int, cfg: Config, k: nat)
    requires ServerSpec.Run(r, es, lfd, cfg) && (forall x <- r[0].c :: x == CLOSED) && (forall s <- r :: Sound(s))
    requires k <= |es|
    ensures Armed(r[k].c)
  {
    if k > 0 {
      hide Step, Armed, Unwrapped, GoodKeys;
      RunArmed(r, es, lfd, cfg, k - 1);
      assert r[k - 1] in r;
      assert Step(r[k - 1], es[k - 1], r[k], lfd, cfg);
      StepKeepsArmed(r[k - 1], es[k - 1], r[k], lfd, cfg);
    }
  }

  lemma NewSlot(s: Srv, e: Event, s': Srv, lfd: int, cfg: Config)
    requires Step(s, e, s', lfd, cfg) && e.Connect? && s' != s && FdInv(s', lfd)
    ensures var j := FindFd(s'.c, e.fd);
            j < |s'.c| && s'.c[j].st == PreLogin && s'.c[j].tx == Tx([], 0) && s'.c[j].rbuf.None?
  {
    FoundFd(s', lfd, e.fd, FindFree(s.c));
    hide FdInv;
  }

  /** A stored key without the prefix breaks agreement: the server waits for authentication while the
      client that sent the LOGIN, told of an error, does not.  With the prefix the very same LOGIN is answered
      by a challenge, so the prefix decides. */
  lemma PrefixDecides(s: Srv, i: nat, m: Msg, env: Env, c: C.Clt, cenv: C.Env)
    requires i < |s.c| && s.c[i].st == PreLogin && m.dst == 0 && m.mtype == LOGIN_REQ
    requires First(m, USERNAME).Some? && LookupName(s.db, CStr(First(m, USERNAME).value)).1.Some?
    requires c.st == PreLogin && m in c.pending && |c.pubkey| <= MSG_MAX_PAY_SIZE - 20
    ensures var (s', reply) := Login(s, i, m, env);
            && s'.c[i].st == LoginOk && reply.Some?
            && (C.ProcessSrvMsg(c, reply.value, cenv).st == LoginOk
                <==> PLAINTEXT <= LookupName(s.db, CStr(First(m, USERNAME).value)).1.value.key)
  {
    hide LookupName, First, EncAttr, Attrs;
    var r := AddAttr(Response(m, env.ts), CHALLENGE, PLAINTEXT + [0]);
    ChallengeAttrs(m, env);
    assert IsChallenge(r) && IsRes(r.mtype) && C.Answered(m, r);
    Challenged(c, r, cenv);
    var e := Err(m, SC_METHOD_NOT_ALLOWED, env);
    assert e.mtype == 0x1a && !IsRes(e.mtype);
    Unmoved(c, e, cenv);
    hide IsChallenge, C.ProcessSrvMsg;
  }

  lemma Challenged(c: C.Clt, r: Msg, cenv: C.Env)
    requires IsChallenge(r) && r.src == 0 && IsRes(r.mtype) && C.FindPending(c.pending, r) < |c.pending|
    requires c.st == PreLogin && |c.pubkey| <= MSG_MAX_PAY_SIZE - 20
    ensures C.ProcessSrvMsg(c, r, cenv).st == LoginOk
  {
    AuthFits(r.trf, cenv.ts, c.pubkey);
    hide Attrs, C.AuthRequest, C.FindPending, Msg.Fits;
  }

  lemma Unmoved(c: C.Clt, e: Msg, cenv: C.Env)
    requires e.mtype == 0x1a
    ensures C.ProcessSrvMsg(c, e, cenv) == c
  {
    assert !IsRes(e.mtype);
    hide C.OnOffer, C.OnGetFile, C.OnOfferRes, C.OnFileData, C.OnLoginRes;
  }
}
