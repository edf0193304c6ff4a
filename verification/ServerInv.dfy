/** What every step of the server keeps. */
module ServerInv {
  import opened Bytes
  import opened Message
  import opened Channel
  import opened UserFile
  import opened UserDb
  import opened UserDbMap
  import opened ServerSpec

  // ----- descriptors and queues -----

  ghost predicate DistinctFds(c: seq<Client>) {
    forall i, j | 0 <= i < j < |c| && c[i].Open() && c[j].Open() :: c[i].fd != c[j].fd
  }

  function OpenFds(c: seq<Client>): set<int> { set j | 0 <= j < |c| && c[j].Open() :: c[j].fd }

  function BusyFds(c: seq<Client>): set<int> { set j | 0 <= j < |c| && c[j].Open() && c[j].tx.q != [] :: c[j].fd }

  /** Readiness agreement: the read set is the listening socket and the open slots, the write set the
      slots with something to send; `maxfd` bounds them all and no set is used beyond its size. */
  ghost predicate FdInv(s: Srv, lfd: int) {
    && lfd >= 0 && lfd !in OpenFds(s.c) && DistinctFds(s.c)
    && s.rfds == {lfd} + OpenFds(s.c)
    && s.wfds == BusyFds(s.c)
    && lfd <= s.maxfd && (forall x <- s.c | x.Open() :: x.fd <= s.maxfd && x.fd < FD_SETSIZE)
    && (forall x <- s.c | x.Open() :: x.tx.Ok() && OkRbuf(x.rbuf))
  }

  /** Slot `i` is replaced by one with the same descriptor, and the sets follow its queue. */
  lemma ReplaceSlot(s: Srv, s': Srv, i: nat, lfd: int)
    requires FdInv(s, lfd) && i < |s.c| && s.c[i].Open()
    requires |s'.c| == |s.c| && s'.c == s.c[i := s'.c[i]] && s'.c[i].fd == s.c[i].fd
    requires s'.rfds == s.rfds && s'.maxfd == s.maxfd && s'.c[i].tx.Ok() && OkRbuf(s'.c[i].rbuf)
    requires s'.wfds == if s'.c[i].tx.q != [] then s.wfds + {s.c[i].fd} else s.wfds - {s.c[i].fd}
    ensures FdInv(s', lfd)
  {
    assert forall j | 0 <= j < |s.c| && j != i :: s'.c[j] == s.c[j];
    assert OpenFds(s'.c) == OpenFds(s.c);
    assert BusyFds(s'.c) == s'.wfds;
  }

  lemma EnqueueKeepsFds(s: Srv, i: nat, m: Msg, lfd: int)
    requires FdInv(s, lfd) && i < |s.c| && s.c[i].Open()
    ensures FdInv(EnqueueAt(s, i, m), lfd)
  {
    UnsentGrows(s.c[i].tx, m);
    ReplaceSlot(s, EnqueueAt(s, i, m), i, lfd);
  }

  lemma CloseKeepsFds(s: Srv, i: nat, lfd: int)
    requires FdInv(s, lfd) && i < |s.c| && s.c[i].Open()
    ensures FdInv(Close(s, i), lfd)
  {
    var s' := Close(s, i);
    assert forall j | 0 <= j < |s.c| && j != i :: s'.c[j] == s.c[j];
    assert OpenFds(s'.c) == OpenFds(s.c) - {s.c[i].fd};
    assert BusyFds(s'.c) == BusyFds(s.c) - {s.c[i].fd};
  }

  lemma CloseDoomedKeepsFds(s: Srv, i: nat, id: u64, lfd: int)
    requires FdInv(s, lfd)
    ensures FdInv(CloseDoomed(s, i, id), lfd)
  {
    var s' := CloseDoomed(s, i, id);
    var gone := set j | 0 <= j < |s.c| && Doomed(s.c, i, id, j) :: s.c[j].fd;
    assert forall j | 0 <= j < |s.c| :: s'.c[j] == if Doomed(s.c, i, id, j) then CLOSED else s.c[j];
    assert OpenFds(s'.c) == OpenFds(s.c) - gone;
    assert BusyFds(s'.c) == BusyFds(s.c) - gone;
  }

  /** Only login fields of slot `i` and the database change. */
  ghost predicate Relabel(s: Srv, s': Srv, i: nat) {
    && i < |s.c| == |s'.c| && s'.c == s.c[i := s'.c[i]]
    && s'.c[i].fd == s.c[i].fd && s'.c[i].tx == s.c[i].tx && s'.c[i].rbuf == s.c[i].rbuf
    && s'.rfds == s.rfds && s'.wfds == s.wfds && s'.maxfd == s.maxfd
  }

  lemma RelabelKeepsFds(s: Srv, s': Srv, i: nat, lfd: int)
    requires FdInv(s, lfd) && Relabel(s, s', i) && s.c[i].Open()
    ensures FdInv(s', lfd)
  {
    assert s.wfds == if s.c[i].tx.q != [] then s.wfds + {s.c[i].fd} else s.wfds - {s.c[i].fd};
    ReplaceSlot(s, s', i, lfd);
  }

  lemma SameSlots(s: Srv, s': Srv, i: nat)
    requires i < |s.c| && s'.c == s.c && s'.rfds == s.rfds && s'.wfds == s.wfds && s'.maxfd == s.maxfd
    ensures Relabel(s, s', i)
  {
    assert s.c[i := s.c[i]] == s.c;
  }

  lemma LoginRelabels(s: Srv, i: nat, m: Msg, env: Env)
    requires i < |s.c|
    ensures Relabel(s, Login(s, i, m, env).0, i)
  {
    hide LookupName, GetTempId, NameInUse, First, Err, ServerSpec.Ok, AddAttr;
    var s' := Login(s, i, m, env).0;
    if s'.c == s.c { SameSlots(s, s', i); }
  }

  lemma AuthRelabels(s: Srv, i: nat, m: Msg, env: Env)
    requires i < |s.c|
    ensures var s' := Auth(s, i, m, env).0;
            Relabel(s, s', i) || (s.c[i].st == LoginOk && Relabel(CloseDoomed(s, i, s.c[i].id), s', i))
  {
    hide CloseDoomed, First, Err, ServerSpec.Ok;
    CloseDoomedSpares(s, i, s.c[i].id);
    var s' := Auth(s, i, m, env).0;
    if s'.c == s.c { SameSlots(s, s', i); }
  }

  lemma CloseDoomedSpares(s: Srv, i: nat, id: u64)
    requires i < |s.c|
    ensures var s' := CloseDoomed(s, i, id);
            && |s'.c| == |s.c| && s'.c[i] == s.c[i] && s'.db == s.db && s'.maxfd == s.maxfd && s'.dead == s.dead
            && forall j | 0 <= j < |s.c| :: s'.c[j] == if Doomed(s.c, i, id, j) then CLOSED else s.c[j]
  {}

  lemma OthersKeepSlots(s: Srv, i: nat, m: Msg, env: Env)
    requires i < |s.c|
    ensures Relabel(s, Register(s, i, m, env).0, i) && Relabel(s, DropAccount(s, i, m, env).0, i)
    ensures Relabel(s, Peerlist(s, m, env).0, i) && Relabel(s, s, i)
  {
    hide DropEntry, AddEntry, First, Err, ServerSpec.Ok, EncAttrs, PeerAttrs;
    SameSlots(s, Register(s, i, m, env).0, i);
    SameSlots(s, DropAccount(s, i, m, env).0, i);
    SameSlots(s, Peerlist(s, m, env).0, i);
    SameSlots(s, s, i);
  }

  lemma LogoutRelabels(s: Srv, i: nat, m: Msg, env: Env)
    requires i < |s.c|
    ensures Relabel(s, Logout(s, i, m, env).0, i)
  {}

  lemma ServerMsgIs(s: Srv, i: nat, m: Msg, env: Env)
    requires i < |s.c|
    ensures var s' := ServerMsg(s, i, m, env).0;
            || s' == s || s' == Register(s, i, m, env).0 || s' == DropAccount(s, i, m, env).0
            || s' == Login(s, i, m, env).0 || s' == Auth(s, i, m, env).0
            || s' == Logout(s, i, m, env).0 || s' == Peerlist(s, m, env).0
  {
    hide Register, DropAccount, Login, Auth, Logout, Peerlist, Err, ServerSpec.Ok, AddAttr, Response;
  }

  lemma ServerMsgRelabels(s: Srv, i: nat, m: Msg, env: Env)
    requires i < |s.c|
    ensures var s' := ServerMsg(s, i, m, env).0;
            Relabel(s, s', i) || (s.c[i].st == LoginOk && Relabel(CloseDoomed(s, i, s.c[i].id), s', i))
  {
    LoginRelabels(s, i, m, env);
    AuthRelabels(s, i, m, env);
    LogoutRelabels(s, i, m, env);
    OthersKeepSlots(s, i, m, env);
    ServerMsgIs(s, i, m, env);
    hide *;
  }

  lemma DispatchKeepsFds(s: Srv, i: nat, m: Msg, env: Env, lfd: int)
    requires FdInv(s, lfd) && i < |s.c| && s.c[i].Open()
    ensures var s' := Dispatch(s, i, m, env).0;
            FdInv(s', lfd) && |s'.c| == |s.c| && s'.c[i].Open() && s'.c[i].fd == s.c[i].fd
  {
    hide ServerMsg, CloseDoomed, Enqueue;
    var s' := Dispatch(s, i, m, env).0;
    if m.dst == 0 {
      ServerMsgRelabels(s, i, m, env);
      CloseDoomedSpares(s, i, s.c[i].id);
      if Relabel(s, s', i) {
        RelabelKeepsFds(s, s', i, lfd);
      } else {
        CloseDoomedKeepsFds(s, i, s.c[i].id, lfd);
        RelabelKeepsFds(CloseDoomed(s, i, s.c[i].id), s', i, lfd);
      }
    } else if m.dst != BROADCAST {
      var k := FindPeer(s.c, m.dst);
      if k < |s.c| { EnqueueKeepsFds(s, k, m, lfd); }
    }
  }

  lemma ProcessKeepsFds(s: Srv, i: nat, m: Msg, env: Env, lfd: int)
    requires FdInv(s, lfd) && i < |s.c| && s.c[i].Open()
    ensures FdInv(ProcessMsg(s, i, m, env), lfd)
  {
    hide Dispatch, FdInv;
    var m' := Stamp(s.c[i], m);
    DispatchKeepsFds(s, i, m', env, lfd);
    var (s', reply) := Dispatch(s, i, m', env);
    if reply.Some? { EnqueueKeepsFds(s', i, reply.value, lfd); }
  }

  lemma ReadKeepsFds(s: Srv, i: nat, now: int, chunk: seq<byte>, env: Env, lfd: int, cfg: Config)
    requires FdInv(s, lfd) && i < |s.c| && s.c[i].Open()
    ensures FdInv(ForRead(s, i, now, cfg), lfd)
    ensures var s1 := ForRead(s, i, now, cfg);
            var rx := s1.c[i].rbuf.value;
            rx.Ok() && (0 < |chunk| <= rx.size - |rx.got| ==> FdInv(ReadAt(s1, i, chunk, env), lfd))
  {
    hide ProcessMsg, Feed;
    var s1 := ForRead(s, i, now, cfg);
    assert s.wfds == if s.c[i].tx.q != [] then s.wfds + {s.c[i].fd} else s.wfds - {s.c[i].fd};
    ReplaceSlot(s, s1, i, lfd);
    var rx := s1.c[i].rbuf.value;
    if 0 < |chunk| <= rx.size - |rx.got| {
      match Feed(rx, chunk)
      case Died =>
      case Pending(rx') =>
        var s2 := s1.(c := s1.c[i := s1.c[i].(rbuf := Some(rx'))]);
        ReplaceSlot(s1, s2, i, lfd);
      case Complete(m) =>
        var s2 := s1.(c := s1.c[i := s1.c[i].(rbuf := None)]);
        ReplaceSlot(s1, s2, i, lfd);
        ProcessKeepsFds(s2, i, m, env, lfd);
    }
  }

  lemma WriteKeepsFds(s: Srv, i: nat, n: nat, now: int, lfd: int)
    requires FdInv(s, lfd) && i < |s.c| && s.c[i].Open() && s.c[i].tx.q != []
    requires 0 < n <= MSG_HDR_SIZE + |s.c[i].tx.q[0].pay| - s.c[i].tx.off
    ensures FdInv(WriteAt(s, i, n, now), lfd)
  {
    hide Written;
    var s' := WriteAt(s, i, n, now);
    assert s.c[i].fd in BusyFds(s.c);
    assert s.wfds + {s.c[i].fd} == s.wfds;
    ReplaceSlot(s, s', i, lfd);
  }

  lemma TouchKeepsFds(s: Srv, i: nat, now: int, lfd: int)
    requires FdInv(s, lfd) && i < |s.c| && s.c[i].Open()
    ensures FdInv(Touch(s, i, now), lfd)
  {
    RelabelKeepsFds(s, Touch(s, i, now), i, lfd);
  }

  lemma AcceptKeepsFds(s: Srv, fd: nat, nonblock: bool, now: int, lfd: int)
    requires FdInv(s, lfd) && fd != lfd && fd !in OpenFds(s.c)
    ensures FdInv(Accept(s, fd, nonblock, now), lfd)
  {
    var k := FindFree(s.c);
    var s' := Accept(s, fd, nonblock, now);
    if s' != s {
      assert forall j | 0 <= j < |s.c| && j != k :: s'.c[j] == s.c[j];
      assert OpenFds(s'.c) == OpenFds(s.c) + {fd} by {
        assert s'.c[k].fd == fd;
      }
      assert BusyFds(s'.c) == BusyFds(s.c);
    }
  }

  // ----- compaction -----

  function StayFds(c: seq<Client>, now: int, cfg: Config): set<int> {
    set j | 0 <= j < |c| && Stays(c[j], now, cfg) :: c[j].fd
  }

  function StayBusyFds(c: seq<Client>, now: int, cfg: Config): set<int> {
    set j | 0 <= j < |c| && Stays(c[j], now, cfg) && c[j].tx.q != [] :: c[j].fd
  }

  lemma StaySnoc(c: seq<Client>, p: Client, now: int, cfg: Config)
    ensures StayFds(c + [p], now, cfg) == if Stays(p, now, cfg) then StayFds(c, now, cfg) + {p.fd}
                                          else StayFds(c, now, cfg)
    ensures StayBusyFds(c + [p], now, cfg)
         == if Stays(p, now, cfg) && p.tx.q != [] then StayBusyFds(c, now, cfg) + {p.fd} else StayBusyFds(c, now, cfg)
  {
    hide Stays;
    var r := c + [p];
    assert r[|c|] == p;
    assert forall j | 0 <= j < |c| :: r[j] == c[j];
  }

  lemma SurvivorsSnoc(c: seq<Client>, p: Client, now: int, cfg: Config)
    ensures Survivors(c + [p], now, cfg)
         == if Stays(p, now, cfg) then Survivors(c, now, cfg) + [Resynced(p, now, cfg)] else Survivors(c, now, cfg)
  {
    var r := c + [p];
    assert r[..|r| - 1] == c && r[|r| - 1] == p;
    hide Stays, Resynced;
    assert Survivors(c, now, cfg) + [] == Survivors(c, now, cfg);
  }

  /** Survivors are the slots that stay, each with its own descriptor and queue. */
  lemma {:induction false} SurvivorFds(c: seq<Client>, now: int, cfg: Config)
    ensures var l := Survivors(c, now, cfg);
            OpenFds(l) == StayFds(c, now, cfg) && BusyFds(l) == StayBusyFds(c, now, cfg)
  {
    hide Stays, Resynced, OpenFds, BusyFds, StayFds, StayBusyFds;
    if c == [] {
      NoFds(c, now, cfg);
    } else {
      var c0, p := c[..|c| - 1], c[|c| - 1];
      assert c == c0 + [p];
      SurvivorFds(c0, now, cfg);
      StaySnoc(c0, p, now, cfg);
      SurvivorsSnoc(c0, p, now, cfg);
      if Stays(p, now, cfg) {
        ResyncedSlot(p, now, cfg);
        AppendFds(Survivors(c0, now, cfg), Resynced(p, now, cfg));
      }
    }
  }

  lemma NoFds(c: seq<Client>, now: int, cfg: Config)
    requires c == []
    ensures OpenFds(c) == {} == StayFds(c, now, cfg) && BusyFds(c) == {} == StayBusyFds(c, now, cfg)
  {}

  lemma ResyncedSlot(p: Client, now: int, cfg: Config)
    ensures var q := Resynced(p, now, cfg); q.fd == p.fd && q.tx == p.tx
    ensures Stays(p, now, cfg) ==> p.Open()
  {}

  lemma {:induction false} SurvivorFrom(c: seq<Client>, now: int, cfg: Config)
    ensures forall x <- Survivors(c, now, cfg) ::
              exists j | 0 <= j < |c| :: Stays(c[j], now, cfg) && x == Resynced(c[j], now, cfg)
  {
    hide Stays, Resynced;
    if c != [] {
      var c0, p := c[..|c| - 1], c[|c| - 1];
      assert c == c0 + [p];
      SurvivorFrom(c0, now, cfg);
      SurvivorsSnoc(c0, p, now, cfg);
      forall x <- Survivors(c, now, cfg)
        ensures exists j | 0 <= j < |c| :: Stays(c[j], now, cfg) && x == Resynced(c[j], now, cfg)
      {
        if x in Survivors(c0, now, cfg) {
          var j :| 0 <= j < |c0| && Stays(c0[j], now, cfg) && x == Resynced(c0[j], now, cfg);
          assert c[j] == c0[j];
        } else {
          assert c[|c| - 1] == p;
        }
      }
    }
  }

  lemma {:induction false} SurvivorsDistinct(c: seq<Client>, now: int, cfg: Config)
    requires DistinctFds(c)
    ensures DistinctFds(Survivors(c, now, cfg))
  {
    hide Stays, Resynced;
    if c != [] {
      var c0, p := c[..|c| - 1], c[|c| - 1];
      assert c == c0 + [p];
      SurvivorsDistinct(c0, now, cfg);
      SurvivorsSnoc(c0, p, now, cfg);
      if Stays(p, now, cfg) {
        var l0 := Survivors(c0, now, cfg);
        ResyncedSlot(p, now, cfg);
        forall j | 0 <= j < |l0|
          ensures l0[j].fd != p.fd
        {
          SurvivorFrom(c0, now, cfg);
          assert l0[j] in l0;
          var k :| 0 <= k < |c0| && Stays(c0[k], now, cfg) && l0[j] == Resynced(c0[k], now, cfg);
          ResyncedSlot(c0[k], now, cfg);
        }
      }
    }
  }

  lemma AppendFds(l: seq<Client>, p: Client)
    requires p.Open()
    ensures OpenFds(l + [p]) == OpenFds(l) + {p.fd}
    ensures BusyFds(l + [p]) == if p.tx.q != [] then BusyFds(l) + {p.fd} else BusyFds(l)
  {
    var r := l + [p];
    assert r[|l|] == p;
    assert forall j | 0 <= j < |l| :: r[j] == l[j];
  }

  /** Open slots that form a prefix. */
  lemma PrefixFds(c: seq<Client>, l: seq<Client>)
    requires |l| <= |c| && c[..|l|] == l && forall j | |l| <= j < |c| :: !c[j].Open()
    ensures OpenFds(c) == OpenFds(l) && BusyFds(c) == BusyFds(l)
    ensures DistinctFds(l) ==> DistinctFds(c)
    ensures forall x <- c | x.Open() :: x in l
  {
    assert forall j | 0 <= j < |l| :: c[j] == l[j];
    assert forall j | 0 <= j < |c| && c[j].Open() :: j < |l|;
  }

  lemma ExpiredSplit(c: seq<Client>, now: int, cfg: Config)
    requires DistinctFds(c)
    ensures var gone := ExpiredFds(c, now, cfg);
            OpenFds(c) - gone == StayFds(c, now, cfg) && BusyFds(c) - gone == StayBusyFds(c, now, cfg)
  {}

  lemma UpkeepKeepsFds(s: Srv, s': Srv, now: int, lfd: int, cfg: Config)
    requires FdInv(s, lfd) && Upkept(s, s', now, lfd, cfg)
    ensures FdInv(s', lfd)
  {
    var l := Survivors(s.c, now, cfg);
    SurvivorFds(s.c, now, cfg);
    SurvivorFrom(s.c, now, cfg);
    SurvivorsDistinct(s.c, now, cfg);
    PrefixFds(s'.c, l);
    ExpiredSplit(s.c, now, cfg);
    hide Survivors, OpenFds, BusyFds, ExpiredFds, DistinctFds;
    assert OpenFds(l) <= OpenFds(s.c);
    assert s'.rfds == {lfd} + OpenFds(l);
    forall x <- s'.c | x.Open()
      ensures x.tx.Ok() && OkRbuf(x.rbuf) && x.fd <= s'.maxfd && x.fd < FD_SETSIZE
    {
      assert x in l;
    }
  }

  lemma StepKeepsFds(s: Srv, e: Event, s': Srv, lfd: int, cfg: Config)
    requires FdInv(s, lfd) && Step(s, e, s', lfd, cfg)
    ensures FdInv(s', lfd)
  {
    hide FdInv, Upkept, ForRead, ReadAt, WriteAt, Close, Accept, Touch;
    match e
    case Connect(fd, nonblock, now) =>
      assert fd !in OpenFds(s.c);
      AcceptKeepsFds(s, fd, nonblock, now, lfd);
    case Input(i, now, chunk, env) => ReadKeepsFds(s, i, now, chunk, env, lfd, cfg);
    case NoInput(i, now) => ReadKeepsFds(s, i, now, [], Env(0, [], true, true), lfd, cfg);
    case Output(i, n, now) => WriteKeepsFds(s, i, n, now, lfd);
    case NoOutput(i, now) => TouchKeepsFds(s, i, now, lfd);
    case Hangup(i) => CloseKeepsFds(s, i, lfd);
    case Upkeep(now) => UpkeepKeepsFds(s, s', now, lfd, cfg);
  }
}
