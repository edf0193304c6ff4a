/** What an event of the server does to the two streams of an authenticated client. */
module JointSlots {
  import opened Bytes
  import opened Message
  import opened Channel
  import opened UserDb
  import opened ServerSpec
  import opened ServerInv
  import opened ServerIds
  import opened ServerPeers
  import opened ServerAuth
  import opened ServerIo
  import opened Joint
  import opened JointServer

  /** No gap inside a message has lasted so long that what was received of it is discarded. */
  predicate Calm(x: Client, now: int, cfg: Config) { Resynced(x, now, cfg) == x }

  ghost predicate Unhurried(s: Srv, e: Event, cfg: Config) {
    match e
    case Input(i, now, _, _) => i < |s.c| && s.c[i].Peer() ==> Calm(s.c[i], now, cfg)
    case NoInput(i, now) => i < |s.c| && s.c[i].Peer() ==> Calm(s.c[i], now, cfg)
    case Upkeep(now) => forall x <- s.c | x.Peer() :: Calm(x, now, cfg)
    case _ => true
  }

  /** Nothing happens to the streams but that messages are queued. */
  ghost predicate QuietSlot(x: Client, y: Client) { y.rbuf == x.rbuf && y.tx.off == x.tx.off && x.tx.q <= y.tx.q }

  /** The event concerns the connection of slot `x`. */
  predicate Concerns(s: Srv, i: nat, x: Client) { i < |s.c| && s.c[i] == x }

  ghost predicate SlotAfter(s: Srv, e: Event, x: Client, y: Client) {
    if e.Input? && Concerns(s, e.i, x) then
      OkRbuf(x.rbuf) && 0 < |e.chunk| <= Prepared(x.rbuf).size - |Prepared(x.rbuf).got| ==>
        match Feed(Prepared(x.rbuf), e.chunk)
        case Pending(rx) => y.rbuf == Some(rx) && y.tx == x.tx
        case Complete(m) => y.rbuf == None && y.tx.off == x.tx.off && x.tx.q <= y.tx.q
        case Died => true
    else if e.NoInput? && Concerns(s, e.i, x) then y.rbuf == Some(Prepared(x.rbuf)) && y.tx == x.tx
    else if e.Output? && Concerns(s, e.i, x) then
      && y.rbuf == x.rbuf
      && (x.tx.Ok() && x.tx.q != [] && 0 < e.n <= MSG_HDR_SIZE + |x.tx.q[0].pay| - x.tx.off
          ==> y.tx == Written(x.tx, e.n))
    else QuietSlot(x, y)
  }

  lemma ProcessQuiet(s: Srv, i: nat, m: Msg, env: Env)
    requires i < |s.c| && s.c[i].Open()
    ensures var s' := ProcessMsg(s, i, m, env);
            |s'.c| == |s.c| && forall j | 0 <= j < |s.c| && s'.c[j].Open() :: QuietSlot(s.c[j], s'.c[j])
  {
    hide ServerMsg, Err, CloseDoomed;
    var m' := Stamp(s.c[i], m);
    if m.dst == 0 {
      ServerMsgRelabels(s, i, m', env);
      CloseDoomedSpares(s, i, s.c[i].id);
    }
  }

  lemma InputSlot(s: Srv, e: Event, cfg: Config, j: nat)
    requires e.Input? && e.i < |s.c| && s.c[e.i].Open() && j < |s.c| && s.c[j].Peer() && Unhurried(s, e, cfg)
    requires forall a, b | 0 <= a < b < |s.c| && s.c[a].Open() && s.c[b].Open() :: s.c[a].fd != s.c[b].fd
    requires var rx := ForRead(s, e.i, e.now, cfg).c[e.i].rbuf.value; rx.Ok() && 0 < |e.chunk| <= rx.size - |rx.got|
    requires ReadAt(ForRead(s, e.i, e.now, cfg), e.i, e.chunk, e.env).c[j].Open()
    ensures SlotAfter(s, e, s.c[j], ReadAt(ForRead(s, e.i, e.now, cfg), e.i, e.chunk, e.env).c[j])
  {
    hide ProcessMsg, Feed;
    var i := e.i;
    var s1 := ForRead(s, i, e.now, cfg);
    assert Concerns(s, i, s.c[j]) <==> i == j;
    match Feed(s1.c[i].rbuf.value, e.chunk)
    case Died =>
    case Pending(rx) =>
    case Complete(m) =>
      var s2 := s1.(c := s1.c[i := s1.c[i].(rbuf := None)]);
      ProcessQuiet(s2, i, m, e.env);
  }

  lemma UpkeepSlot(s: Srv, s': Srv, now: int, lfd: int, cfg: Config, j: nat, j': nat)
    requires DistinctFds(s.c) && Upkept(s, s', now, lfd, cfg) && Unhurried(s, Upkeep(now), cfg)
    requires j < |s.c| && s.c[j].Peer() && j' < |s'.c| && s'.c[j'].Peer() && s'.c[j'].fd == s.c[j].fd
    ensures s'.c[j'] == s.c[j]
  {
    hide Survivors;
    SurvivorFrom(s.c, now, cfg);
    PrefixIds(s'.c, Survivors(s.c, now, cfg));
    assert s'.c[j'] in s'.c;
    var k :| 0 <= k < |s.c| && Stays(s.c[k], now, cfg) && s'.c[j'] == Resynced(s.c[k], now, cfg);
    assert s.c[k] in s.c;
  }

  lemma StepSameFds(s: Srv, e: Event, s': Srv, lfd: int, cfg: Config)
    requires FdInv(s, lfd) && ServerSpec.Step(s, e, s', lfd, cfg) && !e.Upkeep? && !e.Connect?
    ensures SameFds(s.c, s'.c)
  {
    hide ReadAt, Written, FdInv;
    match e
    case Input(i, now, chunk, env) =>
      var s1 := ForRead(s, i, now, cfg);
      ReadGains(s, s1, i, chunk, env);
    case _ =>
  }

  /** A new connection takes an unused slot. */
  lemma ConnectSlot(s: Srv, fd: nat, nonblock: bool, now: int, j: nat, j': nat)
    requires DistinctFds(s.c)
    requires var s' := ServerSpec.Accept(s, fd, nonblock, now);
             j < |s.c| && s.c[j].Peer() && j' < |s'.c| && s'.c[j'].Peer() && s'.c[j'].fd == s.c[j].fd
    ensures ServerSpec.Accept(s, fd, nonblock, now).c[j'] == s.c[j]
  {
    var k := FindFree(s.c);
    var s' := ServerSpec.Accept(s, fd, nonblock, now);
    assert s'.c[j'] == s.c[j'];
  }

  /** A connection that is authenticated before and after the event. */
  lemma ServeSlot(s: Srv, e: Event, s': Srv, lfd: int, cfg: Config, j: nat, j': nat)
    requires FdInv(s, lfd) && ServerSpec.Step(s, e, s', lfd, cfg) && Unhurried(s, e, cfg)
    requires j < |s.c| && s.c[j].Peer() && j' < |s'.c| && s'.c[j'].Peer() && s'.c[j'].fd == s.c[j].fd
    ensures SlotAfter(s, e, s.c[j], s'.c[j'])
  {
    DistinctOf(s, lfd);
    hide FdInv, Upkept, ReadAt, Written, FindFree, ServerSpec.Accept;
    if !e.Upkeep? && !e.Connect? {
      StepSameFds(s, e, s', lfd, cfg);
      SameSlot(s.c, s'.c, j, j');
    }
    match e
    case Connect(fd, nonblock, now) => ConnectSlot(s, fd, nonblock, now, j, j');
    case Input(i, now, chunk, env) => InputSlot(s, e, cfg, j);
    case Upkeep(now) => UpkeepSlot(s, s', now, lfd, cfg, j, j');
    case NoInput(i, now) => assert Concerns(s, i, s.c[j]) <==> i == j;
    case Output(i, n, now) => assert Concerns(s, i, s.c[j]) <==> i == j;
    case NoOutput(i, now) =>
    case Hangup(i) =>
  }

  // ----- connections that become authenticated -----

  /** The slot has just been authenticated: nothing was on its way but the answer to that, still unwritten. */
  ghost predicate NewSlot(y: Client) { y.rbuf.None? && y.tx.off == 0 && |y.tx.q| == 1 }

  /** Who is authenticated after the event and was not before. */
  ghost predicate IsNew(s: Srv, y: Client) { y.Peer() && (y.id, y.fd) !in PeerFds(s.c) }

  lemma WasPeer(s: Srv, x: Client, y: Client)
    requires x in s.c && x.Peer() && (y.id, y.fd) == (x.id, x.fd)
    ensures !IsNew(s, y)
  {
    var j :| 0 <= j < |s.c| && s.c[j] == x;
    assert (s.c[j].id, s.c[j].fd) in PeerFds(s.c);
  }

  lemma InputNew(s: Srv, e: Event, cfg: Config, j: nat)
    requires e.Input? && e.i < |s.c| && s.c[e.i].Open() && j < |s.c|
    requires var rx := ForRead(s, e.i, e.now, cfg).c[e.i].rbuf.value; rx.Ok() && 0 < |e.chunk| <= rx.size - |rx.got|
    requires var s' := ReadAt(ForRead(s, e.i, e.now, cfg), e.i, e.chunk, e.env); IsNew(s, s'.c[j]) && Quiet(s, e, s')
    ensures j == e.i && NewSlot(ReadAt(ForRead(s, e.i, e.now, cfg), e.i, e.chunk, e.env).c[j])
  {
    hide ProcessMsg, Feed, IsNew;
    var i := e.i;
    var s1 := ForRead(s, i, e.now, cfg);
    var y := ReadAt(s1, i, e.chunk, e.env).c[j];
    assert y.Peer() by { NewIsPeer(s, y); }
    assert s.c[j] in s.c;
    match Feed(s1.c[i].rbuf.value, e.chunk)
    case Died => WasPeer(s, s.c[j], y);
    case Pending(rx) => WasPeer(s, s.c[j], y);
    case Complete(m) =>
      var s2 := s1.(c := s1.c[i := s1.c[i].(rbuf := None)]);
      ProcessEffect(s2, i, m, e.env, j);
      if j != i || s.c[i].Peer() {
        if j == i { PeerStays(s2, i, m, e.env); }
        hide LoginEffect;
        WasPeer(s, s.c[j], y);
      } else {
        Joins(s2, i, m, e.env);
      }
  }

  lemma NewIsPeer(s: Srv, y: Client)
    requires IsNew(s, y)
    ensures y.Peer()
  {}

  lemma UpkeepNew(s: Srv, s': Srv, now: int, lfd: int, cfg: Config, j: nat)
    requires Upkept(s, s', now, lfd, cfg) && j < |s'.c| && s'.c[j].Open()
    ensures !IsNew(s, s'.c[j])
  {
    hide IsNew;
    UpkeepEffect(s, s', now, lfd, cfg, j);
    var x :| x in s.c && x.Open() && x.fd == s'.c[j].fd && SameLogin(x, s'.c[j]);
    if s'.c[j].Peer() { WasPeer(s, x, s'.c[j]); } else { NotPeer(s, s'.c[j]); }
  }

  lemma NotPeer(s: Srv, y: Client)
    requires !y.Peer()
    ensures !IsNew(s, y)
  {}

  /** Only the connection that a message has been read from can become authenticated. */
  lemma ServeNew(s: Srv, e: Event, s': Srv, lfd: int, cfg: Config, j: nat)
    requires ServerSpec.Step(s, e, s', lfd, cfg) && Quiet(s, e, s') && j < |s'.c| && IsNew(s, s'.c[j])
    ensures e.Input? && j == e.i && NewSlot(s'.c[j])
  {
    NewIsPeer(s, s'.c[j]);
    hide Upkept, ReadAt, IsNew, Quiet, WriteAt, ServerSpec.Accept;
    if e.Input? {
      InputNew(s, e, cfg, j);
    } else {
      OthersOld(s, e, s', lfd, cfg, j);
    }
  }

  lemma OthersOld(s: Srv, e: Event, s': Srv, lfd: int, cfg: Config, j: nat)
    requires ServerSpec.Step(s, e, s', lfd, cfg) && j < |s'.c| && s'.c[j].Peer() && !e.Input?
    ensures !IsNew(s, s'.c[j])
  {
    hide Upkept, Written, IsNew;
    if e.Upkeep? { UpkeepNew(s, s', e.now, lfd, cfg, j); } else { WasPeer(s, s.c[j], s'.c[j]); }
  }
}
