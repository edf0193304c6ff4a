/** Where runs of clients, server and byte streams start, and that anybody may join and leave them. */
module JointStart {
  import opened Bytes
  import opened Message
  import opened Channel
  import opened Streams
  import opened UserDb
  import opened ServerSpec
  import opened ServerInv
  import opened ServerIds
  import opened ServerPeers
  import opened ServerQueues
  import opened Joint
  import opened JointSlots
  import opened JointBytes
  import opened JointWire
  import JointRuns
  import C = ClientSpec
  import I = ClientIo
  import T = Transfers

  const FRESH := C.Clt(PreLogin, [], [], [], map[], [], false)

  function Fresh(x: Client, clt: C.Clt): Line { Line(x.id, x.fd, I.Conn(clt, 0, None, true), [], []) }

  /** The client `clt` for every authenticated slot that is not known. */
  function Newcomers(c: seq<Client>, known: set<(u64, int)>, clt: C.Clt): seq<Line> {
    if c == [] then []
    else
      var x := c[|c| - 1];
      Newcomers(c[..|c| - 1], known, clt) + if x.Peer() && (x.id, x.fd) !in known then [Fresh(x, clt)] else []
  }

  lemma PeersSnoc(c: seq<Client>)
    requires c != []
    ensures var x := c[|c| - 1];
            PeerFds(c) == PeerFds(c[..|c| - 1]) + if x.Peer() then {(x.id, x.fd)} else {}
  {
    var c0 := c[..|c| - 1];
    assert forall j | 0 <= j < |c0| :: c0[j] == c[j];
  }

  lemma EndsSnoc(l: seq<Line>, x: Line)
    ensures Ends(l + [x]) == Ends(l) + [End(x.id, x.fd, x.conn.clt, [], [])]
    ensures Links(Ends(l + [x])) == Links(Ends(l)) + {(x.id, x.fd)}
    ensures DistinctIds(Ends(l)) && (forall y <- Links(Ends(l)) :: y.0 != x.id) ==> DistinctIds(Ends(l + [x]))
  {
    var a, b := Ends(l), Ends(l + [x]);
    assert b == a + [End(x.id, x.fd, x.conn.clt, [], [])];
    assert forall i | 0 <= i < |a| :: b[i] == a[i] && (a[i].id, a[i].fd) in Links(a);
    assert b[|a|].id == x.id && b[|a|].fd == x.fd;
  }

  lemma {:induction false} NewcomersLink(c: seq<Client>, known: set<(u64, int)>, clt: C.Clt)
    requires UniquePeers(c)
    ensures var news := Newcomers(c, known, clt);
            && DistinctIds(Ends(news)) && Links(Ends(news)) == PeerFds(c) - known
            && forall l <- news :: l.conn == I.Conn(clt, 0, None, true) && l.up == [] && l.down == []
  {
    if c != [] {
      var c0, x := c[..|c| - 1], c[|c| - 1];
      NewcomersLink(c0, known, clt);
      PeersSnoc(c);
      var news := Newcomers(c0, known, clt);
      if x.Peer() && (x.id, x.fd) !in known {
        EndsSnoc(news, Fresh(x, clt));
        OtherIds(c, x.id);
        hide PeerFds, Links, DistinctIds, Ends;
      } else {
        assert news + [] == news;
        hide PeerFds, Links, DistinctIds, Ends;
      }
    }
  }

  lemma OtherIds(c: seq<Client>, id: u64)
    requires UniquePeers(c) && c != [] && c[|c| - 1].Peer() && c[|c| - 1].id == id
    ensures forall y <- PeerFds(c[..|c| - 1]) :: y.0 != id
  {}

  lemma EndsOfNew(news: seq<Line>, clt: C.Clt)
    requires forall l <- news :: l.conn == I.Conn(clt, 0, None, true)
    ensures forall e <- Ends(news) :: e.up == [] && e.down == [] && e.clt == clt
  {
    forall e <- Ends(news)
      ensures e.up == [] && e.down == [] && e.clt == clt
    {
      var i :| 0 <= i < |news| && Ends(news)[i] == e;
      assert news[i] in news;
    }
  }

  /** Every reachable state of the server in which nothing is on its way to or from authenticated connections is
      the start of such runs, with a client for each of them; so is that of a server without connections. */
  lemma Startable(s: Srv, lfd: int) returns (v: Wire)
    requires FdInv(s, lfd) && PeerInv(s) && QueuesFit(s.c)
    requires forall x <- s.c | x.Peer() :: x.tx.q == [] && x.rbuf.None?
    ensures BInitial(v, lfd) && v.srv == s
    ensures forall x <- s.c | x.Peer() :: exists l <- v.lines :: l.id == x.id
  {
    v := Wire(s, Newcomers(s.c, {}, FRESH), map[]);
    Below(s);
    NewcomersLink(s.c, {}, FRESH);
    EndsOfNew(v.lines, FRESH);
    hide FdInv, PeerInv, UniquePeers, DistinctIds, Newcomers, QueuesFit;
    forall x <- s.c | x.Peer()
      ensures exists l <- v.lines :: l.id == x.id
    {
      assert (x.id, x.fd) in PeerFds(s.c);
      assert (x.id, x.fd) in Links(Ends(v.lines));
      var i :| 0 <= i < |v.lines| && Ends(v.lines)[i].id == x.id;
      assert v.lines[i] in v.lines;
    }
  }

  /** Anybody may join and leave: whatever event of other connections the server can process, with no effect on
      the connections of running downloads and nothing waiting for whom it authenticates, is a step of such runs,
      whoever the clients are that come. */
  lemma AnybodyMayJoin(v: Wire, e: Event, s': Srv, clt: C.Clt, lfd: int, cfg: Config) returns (a: BAct, v': Wire)
    requires ServerSpec.Step(v.srv, e, s', lfd, cfg) && UniquePeers(s'.c)
    requires (e.Input? || e.Output?) && e.i < |v.srv.c| ==> !v.srv.c[e.i].Peer()
    requires Unhurried(v.srv, e, cfg) && Attended(v.running, v.srv.c, s'.c) && Quiet(v.srv, e, s')
    requires T.Newcomer(clt) && AllFit(clt.queue)
    ensures BStep(v, a, v', lfd, cfg) && v'.srv == s' && v'.running == v.running
    ensures forall x <- s'.c | x.Peer() && (x.id, x.fd) !in PeerFds(v.srv.c) ::
              exists l <- v'.lines :: l.id == x.id && l.fd == x.fd && l.conn.clt == clt
  {
    hide ServerSpec.Step, Unhurried, Attended, Quiet, UniquePeers, PeerFds, DistinctIds, T.Newcomer, RemainingLines;
    var news := Newcomers(s'.c, PeerFds(v.srv.c), clt);
    NewcomersLink(s'.c, PeerFds(v.srv.c), clt);
    EndsOfNew(news, clt);
    hide Newcomers;
    v' := Wire(s', RemainingLines(v.lines, s'.c) + news, v.running);
    a := BServe(0, e, v.lines, news);
    forall x <- s'.c | x.Peer() && (x.id, x.fd) !in PeerFds(v.srv.c)
      ensures exists l <- v'.lines :: l.id == x.id && l.fd == x.fd && l.conn.clt == clt
    {
      PeerListed(s'.c, x);
      assert (x.id, x.fd) in Links(Ends(news));
      var i :| 0 <= i < |news| && (Ends(news)[i].id, Ends(news)[i].fd) == (x.id, x.fd);
      assert news[i] in news && news[i] in v'.lines;
    }
  }

  lemma PeerListed(c: seq<Client>, x: Client)
    requires x in c && x.Peer()
    ensures (x.id, x.fd) in PeerFds(c)
  {
    var j :| 0 <= j < |c| && c[j] == x;
    assert (c[j].id, c[j].fd) in PeerFds(c);
  }
}
