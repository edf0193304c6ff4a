/** What the server does to the messages of authenticated clients: it forwards them, and adds nothing that
    could be taken for one of them. */
module JointServer {
  import opened Bytes
  import opened Message
  import opened Channel
  import opened UserFile
  import opened UserDb
  import opened ServerSpec
  import opened ServerInv
  import opened ServerIds
  import opened ServerPeers
  import opened ServerRuns
  import opened ServerAuth
  import opened ServerIo
  import opened Joint
  import C = ClientSpec
  import L = LoginAgreement
  import T = Transfers

  // ----- slots that stay where they are -----

  /** Slots may change, but not their descriptors. */
  ghost predicate SameFds(c: seq<Client>, c': seq<Client>) {
    |c'| == |c| && forall j | 0 <= j < |c| && c'[j].Open() :: c[j].Open() && c'[j].fd == c[j].fd
  }

  /** Who stays authenticated stays in its slot. */
  lemma SameSlot(c: seq<Client>, c': seq<Client>, j: nat, j': nat)
    requires DistinctFds(c) && SameFds(c, c')
    requires j < |c| && c[j].Open() && j' < |c'| && c'[j'].Open() && c'[j'].fd == c[j].fd
    ensures j' == j
  {
    assert c[j'].Open() && c[j'].fd == c[j].fd;
  }

  /** The same queue for the same client, or one more message. */
  ghost predicate SameQueue(x: Client, y: Client) { y.Peer() ==> x.Peer() && y.id == x.id && y.tx.q == x.tx.q }

  lemma QueuesSame(c: seq<Client>, c': seq<Client>)
    requires |c'| == |c| && FineSlots(c) && forall j | 0 <= j < |c| :: SameQueue(c[j], c'[j])
    ensures FineSlots(c') && forall m :: SlotsTotal(c', m) <= SlotsTotal(c, m)
  {
    hide AllFine;
    forall m
      ensures SlotsTotal(c', m) <= SlotsTotal(c, m)
    {
      SlotsLe(c, c', m, 0, 0);
    }
    forall y <- c' | y.Peer()
      ensures AllFine(y.id, y.tx.q)
    {
      var j :| 0 <= j < |c| && c'[j] == y;
      assert c[j] in c;
    }
  }

  lemma EnqueueCounts(s: Srv, k: nat, x: Msg)
    requires k < |s.c| && s.c[k].Peer() && FineSlots(s.c) && Fine(s.c[k].id, x)
    ensures FineSlots(EnqueueAt(s, k, x).c)
    ensures forall m :: SlotsTotal(EnqueueAt(s, k, x).c, m) <= SlotsTotal(s.c, m) + Is(m, x)
  {
    var c' := EnqueueAt(s, k, x).c;
    assert s.c[k] in s.c;
    forall m
      ensures SlotsTotal(c', m) <= SlotsTotal(s.c, m) + Is(m, x)
    {
      OccLast(s.c[k].tx.q, x, m);
      assert forall j | 0 <= j < |s.c| && j != k :: c'[j] == s.c[j];
      SlotsLe(s.c, c', m, k, Is(m, x));
    }
    forall y <- c' | y.Peer()
      ensures AllFine(y.id, y.tx.q)
    {
      var j :| 0 <= j < |c'| && c'[j] == y;
      assert s.c[j] in s.c;
    }
  }

  // ----- the server's own replies -----

  /** A reply that no client takes for a message of another one. */
  ghost predicate OwnReply(p: u64, r: Msg) { Fine(p, r) && !T.Core(r) }

  lemma ErrIsOwn(m: Msg, ec: u64, env: Env)
    ensures OwnReply(m.src, Err(m, ec, env))
  {
    assert ToErr(m.mtype) == 16 * (m.mtype / 16) + 10;
    hide EncAttr;
  }

  lemma OkIsOwn(m: Msg, env: Env, pay: seq<byte>)
    requires m.mtype in {PING_REQ, REGISTER_REQ, DROP_REQ, PEERLIST_REQ}
    ensures OwnReply(m.src, ServerSpec.Ok(m, env)) && OwnReply(m.src, AddAttr(Response(m, env.ts), OK, []))
    ensures OwnReply(m.src, Response(m, env.ts).(pay := pay))
  {
    hide EncAttr;
  }

  /** Of an authenticated client that stays so, every request to the server is answered in this way. */
  lemma ServerMsgReplies(s: Srv, i: nat, m: Msg, env: Env)
    requires i < |s.c| && s.c[i].Peer() && ServerMsg(s, i, m, env).0.c[i].Peer()
    ensures var r := ServerMsg(s, i, m, env).1; r.Some? ==> OwnReply(m.src, r.value)
  {
    forall ec
      ensures OwnReply(m.src, Err(m, ec, env))
    {
      ErrIsOwn(m, ec, env);
    }
    if m.mtype in {PING_REQ, REGISTER_REQ, DROP_REQ, PEERLIST_REQ} { OkIsOwn(m, env, EncAttrs(PeerAttrs(s.c))); }
    hide OwnReply, Err, ServerSpec.Ok, AddAttr, First, DropEntry, AddEntry, LookupName, EncAttrs, PeerAttrs;
    hide CloseDoomed;
  }

  /** Nobody but the sender and the addressed client notices a message. */
  lemma DispatchSlots(s: Srv, i: nat, m: Msg, env: Env)
    requires i < |s.c| && s.c[i].Open()
    requires || m.dst == 0 || m.dst == BROADCAST || !s.c[i].Peer()
             || FindPeer(s.c, m.dst) == |s.c| || !Forwardable(m.mtype)
    ensures var s1 := Dispatch(s, i, m, env).0;
            && |s1.c| == |s.c| && s1.c[i].fd == s.c[i].fd && s1.c[i].tx == s.c[i].tx
            && forall j | 0 <= j < |s.c| && j != i :: s1.c[j] == s.c[j] || s1.c[j] == CLOSED
  {
    hide ServerMsg, Err, CloseDoomed;
    if m.dst == 0 {
      ServerMsgRelabels(s, i, m, env);
      CloseDoomedSpares(s, i, s.c[i].id);
    }
  }

  lemma OutsideReplies(s: Srv, i: nat, m: Msg, env: Env)
    requires i < |s.c| && m.dst != 0
    ensures var r := Dispatch(s, i, m, env).1; r.Some? ==> OwnReply(m.src, r.value)
  {
    forall ec
      ensures OwnReply(m.src, Err(m, ec, env))
    {
      ErrIsOwn(m, ec, env);
    }
    hide OwnReply, Err;
  }

  // ----- processing a message -----

  /** What processing a message adds to the queues: at most the message itself, as a client has sent it. */
  ghost predicate Adds(c: seq<Client>, c': seq<Client>, sent: set<Msg>) {
    FineSlots(c') && forall m | T.Core(m) :: SlotsTotal(c', m) <= SlotsTotal(c, m) + if m in sent then 1 else 0
  }

  lemma ProcessOfPeer(s: Srv, i: nat, m: Msg, env: Env)
    requires i < |s.c| && s.c[i].Peer() && FineSlots(s.c)
    ensures Adds(s.c, ProcessMsg(s, i, m, env).c, {m.(src := s.c[i].id)})
  {
    hide ServerMsg, Err, FineSlots, SlotsTotal, Fine, T.Core;
    var x := s.c[i];
    var m' := m.(src := x.id);
    assert Stamp(x, m) == m';
    var k := FindPeer(s.c, m.dst);
    if m.dst != 0 && m.dst != BROADCAST && k < |s.c| && Forwardable(m.mtype) {
      ForwardIsFine(m', s.c[k].id);
      EnqueueCounts(s, k, m');
    } else {
      PeerStays(s, i, m, env);
      DispatchSlots(s, i, m', env);
      var (s1, reply) := Dispatch(s, i, m', env);
      assert s1.c[i].Peer() ==> s1.c[i].id == x.id;
      NotSent(s, s1, i);
      if s1.c[i].Peer() {
        RepliesOfPeer(s, i, m', env);
        hide Dispatch;
        if reply.Some? {
          OwnIsFine(x.id, reply.value);
          EnqueueCounts(s1, i, reply.value);
          CoreIsNot(reply.value);
        }
      } else {
        hide Dispatch;
        if reply.Some? { EnqueueElsewhere(s1, i, reply.value); }
      }
    }
  }

  /** A client that is authenticated keeps its id. */
  lemma PeerStays(s: Srv, i: nat, m: Msg, env: Env)
    requires i < |s.c| && s.c[i].Peer()
    ensures var y := ProcessMsg(s, i, m, env).c[i]; y.Peer() ==> y.id == s.c[i].id
  {
    hide ProcessMsg, First, CStr, Account;
    ProcessEffect(s, i, m, env, i);
  }

  /** A queue of a connection that is not authenticated does not count. */
  lemma EnqueueElsewhere(s: Srv, k: nat, x: Msg)
    requires k < |s.c| && !s.c[k].Peer() && FineSlots(s.c)
    ensures FineSlots(EnqueueAt(s, k, x).c)
    ensures forall m :: SlotsTotal(EnqueueAt(s, k, x).c, m) <= SlotsTotal(s.c, m)
  {
    var c' := EnqueueAt(s, k, x).c;
    assert forall j | 0 <= j < |s.c| && j != k :: c'[j] == s.c[j];
    QueuesSame(s.c, c');
  }

  lemma ForwardIsFine(m: Msg, p: u64)
    requires Forwardable(m.mtype) && m.dst == p
    ensures Fine(p, m)
  {}

  lemma OwnIsFine(p: u64, r: Msg)
    requires OwnReply(p, r)
    ensures Fine(p, r) && !T.Core(r)
  {}

  lemma CoreIsNot(r: Msg)
    requires !T.Core(r)
    ensures forall m | T.Core(m) :: Is(m, r) == 0
  {}

  lemma DistinctOf(s: Srv, lfd: int)
    requires FdInv(s, lfd)
    ensures DistinctFds(s.c)
  {}

  lemma RepliesOfPeer(s: Srv, i: nat, m: Msg, env: Env)
    requires i < |s.c| && s.c[i].Peer() && Dispatch(s, i, m, env).0.c[i].Peer()
    ensures var r := Dispatch(s, i, m, env).1; r.Some? ==> OwnReply(m.src, r.value)
  {
    hide ServerMsg, OwnReply, BroadcastMsg, ForwardMsg;
    if m.dst == 0 { ServerMsgReplies(s, i, m, env); } else { OutsideReplies(s, i, m, env); }
  }

  /** Without forwarding, queues stay as they are until the reply. */
  lemma NotSent(s: Srv, s1: Srv, i: nat)
    requires i < |s.c| == |s1.c| && s.c[i].Peer() && FineSlots(s.c) && s1.c[i].tx == s.c[i].tx
    requires s1.c[i].Peer() ==> s1.c[i].id == s.c[i].id
    requires forall j | 0 <= j < |s.c| && j != i :: s1.c[j] == s.c[j] || s1.c[j] == CLOSED
    ensures FineSlots(s1.c) && forall x :: SlotsTotal(s1.c, x) <= SlotsTotal(s.c, x)
  {
    QueuesSame(s.c, s1.c);
  }

  // ----- connections that become authenticated -----

  /** The slot of a client that has just been authenticated: the answer to its LOGIN or AUTH waits for it, and
      nothing else. */
  ghost predicate Welcomed(x: Client, y: Client) {
    && y.rbuf == x.rbuf && y.tx.off == 0 && |y.tx.q| == 1 && Fine(y.id, y.tx.q[0]) && !T.Core(y.tx.q[0])
  }

  lemma LoginJoins(s: Srv, i: nat, m: Msg, env: Env)
    requires i < |s.c| && !s.c[i].Peer() && Login(s, i, m, env).0.c[i].Peer() && m.mtype == LOGIN_REQ
    ensures var (s', reply) := Login(s, i, m, env);
            && reply == Some(ServerSpec.Ok(m, env)) && s'.c[i].tx == s.c[i].tx && s'.c[i].rbuf == s.c[i].rbuf
            && Fine(s'.c[i].id, reply.value) && !T.Core(reply.value)
  {
    L.OkAttrs(m, env);
    OkHeader(m, env);
    hide First, Err, ServerSpec.Ok, AddAttr, Response, LookupName, GetTempId, NameInUse, Attrs;
  }

  lemma OkHeader(m: Msg, env: Env)
    ensures var r := ServerSpec.Ok(m, env); r.mtype == ToRes(m.mtype) && r.dst == m.src
  {
    hide EncAttr;
  }

  lemma AuthJoins(s: Srv, i: nat, m: Msg, env: Env)
    requires i < |s.c| && !s.c[i].Peer() && Auth(s, i, m, env).0.c[i].Peer() && m.mtype == AUTH_REQ
    requires s.c[i].st == LoginOk ==> m.src == s.c[i].id
    ensures var (s', reply) := Auth(s, i, m, env);
            && reply == Some(ServerSpec.Ok(m, env)) && s'.c[i].tx == s.c[i].tx && s'.c[i].rbuf == s.c[i].rbuf
            && Fine(s'.c[i].id, reply.value) && !T.Core(reply.value)
  {
    OkHeader(m, env);
    CloseDoomedSpares(s, i, s.c[i].id);
    hide First, Err, ServerSpec.Ok, CloseDoomed, CStr, Attrs;
  }

  /** Only LOGIN and AUTH authenticate. */
  lemma JoinKinds(s: Srv, i: nat, m: Msg, env: Env)
    requires i < |s.c| && s.c[i].Open() && !s.c[i].Peer() && ProcessMsg(s, i, m, env).c[i].Peer()
    ensures m.dst == 0 && m.mtype in {LOGIN_REQ, AUTH_REQ}
  {
    hide ProcessMsg, First, CStr, Account;
    ProcessEffect(s, i, m, env, i);
  }

  lemma Joins(s: Srv, i: nat, m: Msg, env: Env)
    requires i < |s.c| && s.c[i].Open() && !s.c[i].Peer() && s.c[i].tx == Tx([], 0)
    requires ProcessMsg(s, i, m, env).c[i].Peer()
    ensures Welcomed(s.c[i], ProcessMsg(s, i, m, env).c[i])
  {
    JoinKinds(s, i, m, env);
    var m' := Stamp(s.c[i], m);
    hide Login, Auth, ServerSpec.Ok, Fine, Err;
    if m.mtype == LOGIN_REQ { LoginJoins(s, i, m', env); } else { AuthJoins(s, i, m', env); }
  }

  /** A connection that is not authenticated adds nothing. */
  lemma ProcessOfOther(s: Srv, i: nat, m: Msg, env: Env)
    requires i < |s.c| && s.c[i].Open() && !s.c[i].Peer() && FineSlots(s.c)
    requires ProcessMsg(s, i, m, env).c[i].Peer() ==> s.c[i].tx == Tx([], 0)
    ensures Adds(s.c, ProcessMsg(s, i, m, env).c, {})
  {
    var c' := ProcessMsg(s, i, m, env).c;
    var m' := Stamp(s.c[i], m);
    DispatchSlots(s, i, m', env);
    assert forall j | 0 <= j < |s.c| && j != i :: c'[j] == s.c[j] || c'[j] == CLOSED by { hide FineSlots, Dispatch; }
    if c'[i].Peer() {
      Joins(s, i, m, env);
      hide ProcessMsg, FineSlots;
      Arrives(s.c, c', i);
    } else {
      hide ProcessMsg, FineSlots;
      QueuesSame(s.c, c');
    }
  }

  lemma Arrives(c: seq<Client>, c': seq<Client>, i: nat)
    requires i < |c| == |c'| && !c[i].Peer() && FineSlots(c) && Welcomed(c[i], c'[i])
    requires forall j | 0 <= j < |c| && j != i :: c'[j] == c[j] || c'[j] == CLOSED
    ensures Adds(c, c', {})
  {
    hide Fine;
    forall m | T.Core(m)
      ensures SlotsTotal(c', m) <= SlotsTotal(c, m)
    {
      assert c'[i].tx.q == [c'[i].tx.q[0]];
      assert Occ(c'[i].tx.q, m) == 0;
      SlotsLe(c, c', m, 0, 0);
    }
    forall y <- c' | y.Peer()
      ensures AllFine(y.id, y.tx.q)
    {
      var j :| 0 <= j < |c'| && c'[j] == y;
      if j != i { assert c[j] in c; }
    }
  }

  // ----- every event -----

  /** The messages that an event hands over, stamped with their sender. */
  ghost function Taken(s: Srv, e: Event, cfg: Config): set<Msg> {
    if Takes(s, e, cfg) then {Completed(s, e, cfg).value.(src := s.c[e.i].id)} else {}
  }

  /** And the message that leaves the server with it. */
  function Given(s: Srv, e: Event): set<Msg> { if Gives(s, e) then {s.c[e.i].tx.q[0]} else {} }

  ghost predicate Balanced(s: Srv, e: Event, s': Srv, cfg: Config) {
    && FineSlots(s'.c)
    && forall m | T.Core(m) :: SlotsTotal(s'.c, m) + (if m in Given(s, e) then 1 else 0)
                             <= SlotsTotal(s.c, m) + if m in Taken(s, e, cfg) then 1 else 0
  }

  /** Only input and output fields of slot `i` change, and its queue does not. */
  lemma TouchedSlot(c: seq<Client>, i: nat, x: Client)
    requires i < |c| && FineSlots(c) && x == c[i].(rbuf := x.rbuf, act := x.act)
    ensures FineSlots(c[i := x]) && forall m :: SlotsTotal(c[i := x], m) <= SlotsTotal(c, m)
  {
    var c' := c[i := x];
    assert forall j | 0 <= j < |c| :: c'[j] == if j == i then x else c[j];
    QueuesSame(c, c');
  }

  lemma InputBalanced(s: Srv, e: Event, cfg: Config)
    requires FineSlots(s.c) && e.Input? && e.i < |s.c| && s.c[e.i].Open()
    requires var rx := ForRead(s, e.i, e.now, cfg).c[e.i].rbuf.value; rx.Ok() && 0 < |e.chunk| <= rx.size - |rx.got|
    requires Quiet(s, e, ReadAt(ForRead(s, e.i, e.now, cfg), e.i, e.chunk, e.env))
    ensures Balanced(s, e, ReadAt(ForRead(s, e.i, e.now, cfg), e.i, e.chunk, e.env), cfg)
  {
    hide ProcessMsg, Feed, FineSlots, SlotsTotal, T.Core;
    var i := e.i;
    var s1 := ForRead(s, i, e.now, cfg);
    assert s1.c == s.c[i := s1.c[i]];
    TouchedSlot(s.c, i, s1.c[i]);
    match Feed(s1.c[i].rbuf.value, e.chunk)
    case Died =>
    case Pending(rx) =>
      var x := s1.c[i].(rbuf := Some(rx));
      TouchedSlot(s.c, i, x);
      assert s1.c[i := x] == s.c[i := x];
    case Complete(m) =>
      var x := s1.c[i].(rbuf := None);
      var s2 := s1.(c := s1.c[i := x]);
      assert s2.c == s.c[i := x];
      TouchedSlot(s.c, i, x);
      if s.c[i].Peer() {
        ProcessOfPeer(s2, i, m, e.env);
      } else {
        ProcessOfOther(s2, i, m, e.env);
      }
  }

  lemma OutputBalanced(s: Srv, e: Event, cfg: Config)
    requires FineSlots(s.c) && e.Output? && e.i < |s.c| && s.c[e.i].tx.Ok() && s.c[e.i].tx.q != []
    requires 0 < e.n <= MSG_HDR_SIZE + |s.c[e.i].tx.q[0].pay| - s.c[e.i].tx.off
    ensures Balanced(s, e, WriteAt(s, e.i, e.n, e.now), cfg)
  {
    var c, c' := s.c, WriteAt(s, e.i, e.n, e.now).c;
    assert c[e.i] in c;
    assert forall j | 0 <= j < |c| && j != e.i :: c'[j] == c[j];
    forall m | T.Core(m)
      ensures SlotsTotal(c', m) + (if m in Given(s, e) then 1 else 0) <= SlotsTotal(c, m)
    {
      OccHead(c[e.i].tx.q, m);
      SlotsLe(c, c', m, e.i, if m in Given(s, e) then -1 else 0);
    }
    forall y <- c' | y.Peer()
      ensures AllFine(y.id, y.tx.q)
    {
      var j :| 0 <= j < |c'| && c'[j] == y;
      assert c[j] in c;
    }
  }

  lemma {:induction false} SurvivorsCount(c: seq<Client>, now: int, cfg: Config, m: Msg)
    ensures SlotsTotal(Survivors(c, now, cfg), m) <= SlotsTotal(c, m)
  {
    if c != [] {
      var c0, p := c[..|c| - 1], c[|c| - 1];
      SurvivorsCount(c0, now, cfg, m);
      var l := Survivors(c0, now, cfg);
      if Stays(p, now, cfg) { assert (l + [Resynced(p, now, cfg)])[..|l|] == l; } else { assert l + [] == l; }
    }
  }

  lemma {:induction false} ClosedTail(c: seq<Client>, l: seq<Client>, m: Msg)
    requires |l| <= |c| && c[..|l|] == l && forall j | |l| <= j < |c| :: !c[j].Open()
    ensures SlotsTotal(c, m) == SlotsTotal(l, m)
    decreases |c|
  {
    if |c| == |l| {
      assert c == l;
    } else {
      assert c[..|c| - 1][..|l|] == l;
      ClosedTail(c[..|c| - 1], l, m);
    }
  }

  lemma UpkeepBalanced(s: Srv, s': Srv, now: int, lfd: int, cfg: Config)
    requires FineSlots(s.c) && Upkept(s, s', now, lfd, cfg)
    ensures Balanced(s, Upkeep(now), s', cfg)
  {
    var l := Survivors(s.c, now, cfg);
    forall m | T.Core(m)
      ensures SlotsTotal(s'.c, m) <= SlotsTotal(s.c, m)
    {
      SurvivorsCount(s.c, now, cfg, m);
      ClosedTail(s'.c, l, m);
    }
    hide Survivors, AllFine;
    SurvivorIds(s.c, now, cfg);
    PrefixIds(s'.c, l);
    forall y <- s'.c | y.Peer()
      ensures AllFine(y.id, y.tx.q)
    {
      var x :| x in s.c && y == x.(rbuf := y.rbuf) && x.Open();
    }
  }

  lemma AcceptBalanced(s: Srv, fd: nat, nonblock: bool, now: int, cfg: Config)
    requires FineSlots(s.c)
    ensures Balanced(s, Connect(fd, nonblock, now), ServerSpec.Accept(s, fd, nonblock, now), cfg)
  {
    var c' := ServerSpec.Accept(s, fd, nonblock, now).c;
    var k := FindFree(s.c);
    assert forall j | 0 <= j < |s.c| && j != k :: c'[j] == s.c[j];
    QueuesSame(s.c, c');
  }

  /** Whatever the server does: what it has received for a client and not yet sent to it is what it took over and
      has not yet handed on, however clients come and go. */
  lemma ServeBalanced(s: Srv, e: Event, s': Srv, lfd: int, cfg: Config)
    requires FineSlots(s.c) && ServerSpec.Step(s, e, s', lfd, cfg) && Quiet(s, e, s')
    ensures Balanced(s, e, s', cfg)
  {
    hide FineSlots, Balanced, Upkept, ReadAt, WriteAt, ServerSpec.Accept, Quiet;
    match e
    case Connect(fd, nonblock, now) => AcceptBalanced(s, fd, nonblock, now, cfg);
    case Input(i, now, chunk, env) => InputBalanced(s, e, cfg);
    case Output(i, n, now) => OutputBalanced(s, e, cfg);
    case Upkeep(now) => UpkeepBalanced(s, s', now, lfd, cfg);
    case NoInput(i, now) => PlainBalanced(s, e, i, s'.c[i], s', cfg);
    case NoOutput(i, now) => PlainBalanced(s, e, i, s'.c[i], s', cfg);
    case Hangup(i) => PlainBalanced(s, e, i, CLOSED, s', cfg);
  }

  lemma PlainBalanced(s: Srv, e: Event, i: nat, x: Client, s': Srv, cfg: Config)
    requires FineSlots(s.c) && i < |s.c| && s'.c == s.c[i := x] && SameQueue(s.c[i], x) && !e.Input? && !e.Output?
    ensures Balanced(s, e, s', cfg)
  {
    assert forall j | 0 <= j < |s.c| :: s'.c[j] == if j == i then x else s.c[j];
    QueuesSame(s.c, s'.c);
  }
}
