/** The server's side of the byte streams, and the transfers over them. */
module JointWire {
  import opened Bytes
  import opened Message
  import opened Channel
  import opened Streams
  import opened UserDb
  import opened ServerSpec
  import opened ServerInv
  import opened ServerIds
  import opened ServerPeers
  import opened ServerAuth
  import opened ServerQueues
  import opened Joint
  import opened JointSlots
  import opened JointBytes
  import opened JointRuns
  import JointServer
  import C = ClientSpec
  import I = ClientIo
  import L = ClientLimits
  import F = TransferFacts
  import T = Transfers

  // ----- commands -----

  lemma AcceptBytes(v: Wire, w: World, a: BAct, v': Wire) returns (w': World)
    requires Carried(v, w) && Linked(w.srv.c, w.ends) && a.BAccept? && BAccepts(v, a.i, a.k, a.src, a.env, v')
    ensures Carried(v', w') && JAccept(w, a.i, a.k, a.src, a.env, w')
  {
    PlainView(v, w);
    var j0 := SlotOf(v, w, a.i);
    QueueFits(v.srv.c[j0], v.lines[a.i], w.ends[a.i]);
    var clt := v.lines[a.i].conn.clt;
    L.CommandsFit(clt, a.k.p, a.k.oid, 0, [], [], 0, a.env);
    AcceptQueue(clt, a.k, a.env);
    hide QueuesFit, AlongAt, Along, T.CanAccept, C.AcceptOffer, Linked, Msg.Fits, Clients;
    var (c', reply) := C.AcceptOffer(clt, a.k.p, a.k.oid, a.env);
    ClientSim(v, w, a.i, C.Queued(c', reply), v'.running);
    w' := World(w.srv, w.ends[a.i := w.ends[a.i].(clt := C.Queued(c', reply))], v'.running);
  }

  lemma AcceptQueue(c: C.Clt, k: T.Key, env: C.Env)
    ensures C.AcceptOffer(c, k.p, k.oid, env).0.queue == c.queue
  {
    hide C.FindTransfer, C.DownloadWrite, C.DownloadResume, C.GetFile;
  }

  lemma ChatBytes(v: Wire, w: World, a: BAct, v': Wire) returns (w': World)
    requires Carried(v, w) && DistinctIds(w.ends) && a.BChat? && BChats(v, a.i, a.c, v')
    ensures Carried(v', w') && JChat(w, a.i, a.c, w')
  {
    PlainView(v, w);
    ChatQueue(View(Plain(v)), v.lines[a.i].id, a.c);
    ClientAt(w.ends, a.i);
    hide QueuesFit, AlongAt, T.Chats, Clients, AllFit;
    ClientSim(v, w, a.i, a.c, v'.running);
    w' := World(w.srv, w.ends[a.i := w.ends[a.i].(clt := a.c)], v'.running);
  }

  lemma ChatQueue(n: T.Net, q: u64, c: C.Clt)
    requires q in n.peers && T.Chats(n, q, c)
    ensures n.peers[q].queue <= c.queue
  {}

  // ----- the server -----

  /** The clients after the event, in whole messages. */
  ghost function Moved(w: World, i: nat, e: Event, cfg: Config): seq<End> {
    if i >= |w.ends| then w.ends
    else
      var x := w.ends[i];
      if Takes(w.srv, e, cfg) && x.up != [] then w.ends[i := x.(up := x.up[1..])]
      else if Gives(w.srv, e) then w.ends[i := x.(down := x.down + [w.srv.c[e.i].tx.q[0]])]
      else w.ends
  }

  /** What a calm slot completes is what is read from its buffer. */
  lemma CompletedIs(s: Srv, e: Event, cfg: Config)
    requires e.Input? && e.i < |s.c| && s.c[e.i].Peer() && Unhurried(s, e, cfg)
    ensures var x := s.c[e.i];
            OkRbuf(x.rbuf) && 0 < |e.chunk| <= Prepared(x.rbuf).size - |Prepared(x.rbuf).got| ==>
              match Feed(Prepared(x.rbuf), e.chunk)
              case Complete(m) => Completed(s, e, cfg) == Some(m)
              case _ => Completed(s, e, cfg) == None
  {
    hide Feed;
  }

  /** The client whose connection the event is about. */
  ghost predicate About(v: Wire, i: nat, e: Event) {
    && (e.Input? || e.Output?) && e.i < |v.srv.c| && v.srv.c[e.i].Peer() && i < |v.lines|
    && v.lines[i].id == v.srv.c[e.i].id && v.lines[i].fd == v.srv.c[e.i].fd
  }

  /** The read of an authenticated connection that its bytes allow. */
  ghost predicate Reads(v: Wire, i: nat, e: Event) {
    && e.Input? && About(v, i, e) && e.chunk <= v.lines[i].up
    && 0 < |e.chunk| <= Prepared(v.srv.c[e.i].rbuf).size - |Prepared(v.srv.c[e.i].rbuf).got|
  }

  lemma ReadTakes(v: Wire, w: World, i: nat, e: Event, cfg: Config)
    requires Carried(v, w) && Reads(v, i, e) && Unhurried(v.srv, e, cfg)
    ensures var x, l, d := v.srv.c[e.i], v.lines[i], w.ends[i];
            && OkRbuf(x.rbuf)
            && match Feed(Prepared(x.rbuf), e.chunk)
               case Pending(rx) => !Takes(w.srv, e, cfg) && Stream(Some(rx), l.up[|e.chunk|..], d.up, Queue(l))
               case Complete(m) =>
                 && Takes(w.srv, e, cfg) && d.up != [] && Completed(w.srv, e, cfg).value == d.up[0]
                 && Stream(None, l.up[|e.chunk|..], d.up[1..], Queue(l))
               case Died => false
  {
    CompletedIs(v.srv, e, cfg);
    var l := v.lines[i];
    assert AlongAt(v.srv.c, e.i, l, w.ends[i]);
    hide Feed, Stream, QueuesFit, Completed, Unhurried;
    Rejoin(e.chunk, l.up);
    StreamRead(v.srv.c[e.i].rbuf, e.chunk, l.up[|e.chunk|..], w.ends[i].up, Queue(l));
  }

  /** The slot of a client that the event is not about. */
  lemma QuietAlong(x: Client, y: Client, l: Line, d: End)
    requires Along(x, l, d) && QuietSlot(x, y) && AllFit(y.tx.q)
    ensures Along(y, l, d)
  {
    StreamEnqueue(l.conn.rbuf, l.down, d.down, x.tx, y.tx);
    hide Stream;
  }

  /** The slot that has read, after whatever it was that it read. */
  lemma InputAlong(v: Wire, w: World, i: nat, e: Event, cfg: Config, y: Client)
    requires Carried(v, w) && Reads(v, i, e) && Unhurried(v.srv, e, cfg)
    requires SlotAfter(v.srv, e, v.srv.c[e.i], y) && AllFit(y.tx.q)
    ensures var l, d := v.lines[i], w.ends[i];
            Along(y, l.(up := l.up[|e.chunk|..]), if Takes(w.srv, e, cfg) && d.up != [] then d.(up := d.up[1..]) else d)
  {
    ReadTakes(v, w, i, e, cfg);
    var x, l, d := v.srv.c[e.i], v.lines[i], w.ends[i];
    assert AlongAt(v.srv.c, e.i, l, d);
    assert Along(x, l, d) && Concerns(v.srv, e.i, x);
    hide Feed, Takes, QueuesFit, Carried, Unhurried;
    if !Feed(Prepared(x.rbuf), e.chunk).Died? { StreamEnqueue(l.conn.rbuf, l.down, d.down, x.tx, y.tx); }
    hide Stream;
  }

  lemma OutputAlong(v: Wire, w: World, i: nat, e: Event, y: Client)
    requires Carried(v, w) && e.Output? && About(v, i, e) && SlotAfter(v.srv, e, v.srv.c[e.i], y)
    requires v.srv.c[e.i].tx.Ok() && v.srv.c[e.i].tx.q != []
    requires 0 < e.n <= MSG_HDR_SIZE + |v.srv.c[e.i].tx.q[0].pay| - v.srv.c[e.i].tx.off
    ensures var x, l, d := v.srv.c[e.i], v.lines[i], w.ends[i];
            Along(y, l.(down := l.down + WrittenBytes(x.tx, e.n)),
                  if Gives(w.srv, e) then d.(down := d.down + [x.tx.q[0]]) else d)
  {
    var x, l, d := v.srv.c[e.i], v.lines[i], w.ends[i];
    assert AlongAt(v.srv.c, e.i, l, d);
    assert Along(x, l, d) && Concerns(v.srv, e.i, x);
    StreamWrite(l.conn.rbuf, l.down, d.down, x.tx, e.n);
    hide Stream, QueuesFit, Carried, WrittenBytes;
  }

  /** Preparing the buffer for a read that brings nothing. */
  lemma NoInputAlong(x: Client, y: Client, l: Line, d: End)
    requires Along(x, l, d) && y.rbuf == Some(Prepared(x.rbuf)) && y.tx == x.tx
    ensures Along(y, l, d)
  {}

  lemma SlotFits(c: seq<Client>, j: nat)
    requires QueuesFit(c) && j < |c| && c[j].Open()
    ensures AllFit(c[j].tx.q)
  {
    assert c[j] in c;
  }

  /** What the server's step allows: a read of bytes that are there, a write of bytes that are queued. */
  lemma EventIs(v: Wire, i: nat, e: Event, l: seq<Line>, news: seq<Line>, v': Wire, lfd: int, cfg: Config)
    requires BServes(v, i, e, l, news, v', lfd, cfg)
    ensures About(v, i, e) <==> (e.Input? || e.Output?) && e.i < |v.srv.c| && v.srv.c[e.i].Peer()
    ensures About(v, i, e) && e.Input?
            ==> Reads(v, i, e) && l == v.lines[i := v.lines[i].(up := v.lines[i].up[|e.chunk|..])]
    ensures About(v, i, e) && e.Output? ==>
              && v.srv.c[e.i].tx.Ok() && v.srv.c[e.i].tx.q != []
              && 0 < e.n <= MSG_HDR_SIZE + |v.srv.c[e.i].tx.q[0].pay| - v.srv.c[e.i].tx.off
              && l == v.lines[i := v.lines[i].(down := v.lines[i].down + WrittenBytes(v.srv.c[e.i].tx, e.n))]
    ensures !About(v, i, e) ==> l == v.lines
  {
    hide ReadAt, ProcessMsg, WrittenBytes, Upkept, PeerFds, WriteAt;
  }

  lemma MovedIs(w: World, i: nat, e: Event, cfg: Config)
    requires !((e.Input? || e.Output?) && e.i < |w.srv.c| && w.srv.c[e.i].Peer())
    ensures Moved(w, i, e, cfg) == w.ends && !Takes(w.srv, e, cfg) && !Gives(w.srv, e)
  {}

  /** The line of the event's client is the one of its slot. */
  lemma SameLine(v: Wire, w: World, i: nat, e: Event, k: nat, j: nat)
    requires Carried(v, w) && DistinctIds(w.ends) && UniquePeers(v.srv.c) && About(v, i, e)
    requires k < |v.lines| && j < |v.srv.c| && v.srv.c[j].Peer() && v.srv.c[j].id == v.lines[k].id
    ensures e.i == j <==> i == k
  {
    hide AlongAt, QueuesFit;
    assert w.ends[i].id == v.lines[i].id && w.ends[k].id == v.lines[k].id;
  }

  /** After the event, every line that remains still carries its client's messages. */
  lemma PairServe(v: Wire, w: World, i: nat, e: Event, l: seq<Line>, news: seq<Line>, v': Wire, lfd: int, cfg: Config,
                  k: nat, j': nat)
    requires Carried(v, w) && WInv(w, lfd) && BServes(v, i, e, l, news, v', lfd, cfg) && QueuesFit(v'.srv.c)
    requires k < |v.lines| && j' < |v'.srv.c| && v'.srv.c[j'].Peer()
    requires v'.srv.c[j'].id == v.lines[k].id && v'.srv.c[j'].fd == v.lines[k].fd
    ensures |l| == |v.lines| && |Moved(w, i, e, cfg)| == |w.ends|
    ensures Along(v'.srv.c[j'], l[k], Moved(w, i, e, cfg)[k])
  {
    EventIs(v, i, e, l, news, v', lfd, cfg);
    InvParts(w, lfd);
    Below(w.srv);
    JointServer.DistinctOf(w.srv, lfd);
    hide WInv, FdInv, PeerInv, QueuesFit, PeerFds, ReadAt, Upkept, Along, Stream, Linked, Completed, WrittenBytes;
    hide UniquePeers, SlotAfter, Attended, Quiet, NewLines, RemainingLines;
    var j := SlotOf(v, w, k);
    var x, y := v.srv.c[j], v'.srv.c[j'];
    assert AlongAt(v.srv.c, j, v.lines[k], w.ends[k]);
    SlotFits(v'.srv.c, j');
    ServeSlot(v.srv, e, v'.srv, lfd, cfg, j, j');
    if About(v, i, e) {
      SameLine(v, w, i, e, k, j);
      if i == k {
        if e.Input? {
          InputAlong(v, w, i, e, cfg, y);
          InputMoved(w, i, e, cfg);
        } else {
          OutputAlong(v, w, i, e, y);
          OutputMoved(w, i, e, cfg);
        }
      } else {
        NotConcerned(v.srv, e, j, y);
        QuietAlong(x, y, v.lines[k], w.ends[k]);
        MovedElsewhere(w, i, e, cfg, k);
      }
    } else {
      MovedIs(w, i, e, cfg);
      if e.NoInput? && e.i == j {
        PreparedSlot(v.srv, e, x, y);
        NoInputAlong(x, y, v.lines[k], w.ends[k]);
      } else {
        NotConcerned(v.srv, e, j, y);
        QuietAlong(x, y, v.lines[k], w.ends[k]);
      }
    }
  }

  lemma InvParts(w: World, lfd: int)
    requires WInv(w, lfd)
    ensures FdInv(w.srv, lfd) && PeerInv(w.srv) && DistinctIds(w.ends) && Linked(w.srv.c, w.ends)
  {}

  lemma InputMoved(w: World, i: nat, e: Event, cfg: Config)
    requires i < |w.ends| && e.Input?
    ensures |Moved(w, i, e, cfg)| == |w.ends|
    ensures var d := w.ends[i];
            Moved(w, i, e, cfg)[i] == if Takes(w.srv, e, cfg) && d.up != [] then d.(up := d.up[1..]) else d
  {
    hide Completed;
  }

  lemma OutputMoved(w: World, i: nat, e: Event, cfg: Config)
    requires i < |w.ends| && e.Output?
    ensures |Moved(w, i, e, cfg)| == |w.ends|
    ensures var d := w.ends[i];
            Moved(w, i, e, cfg)[i] == if Gives(w.srv, e) then d.(down := d.down + [w.srv.c[e.i].tx.q[0]]) else d
  {}

  lemma MovedElsewhere(w: World, i: nat, e: Event, cfg: Config, k: nat)
    requires i < |w.ends| && k < |w.ends| && k != i
    ensures |Moved(w, i, e, cfg)| == |w.ends| && Moved(w, i, e, cfg)[k] == w.ends[k]
  {
    hide Takes, Gives;
  }

  lemma PreparedSlot(s: Srv, e: Event, x: Client, y: Client)
    requires e.NoInput? && Concerns(s, e.i, x) && SlotAfter(s, e, x, y)
    ensures y.rbuf == Some(Prepared(x.rbuf)) && y.tx == x.tx
  {}

  /** An event of another connection. */
  lemma NotConcerned(s: Srv, e: Event, j: nat, y: Client)
    requires DistinctFds(s.c) && j < |s.c| && s.c[j].Peer() && SlotAfter(s, e, s.c[j], y)
    requires (e.Input? || e.Output? || e.NoInput?) ==> e.i != j
    ensures QuietSlot(s.c[j], y)
  {
    hide Feed, Written;
    if (e.Input? || e.Output? || e.NoInput?) && Concerns(s, e.i, s.c[j]) {
      assert false;
    }
  }

  lemma ServeAlong(v: Wire, w: World, i: nat, e: Event, l: seq<Line>, news: seq<Line>, v': Wire, lfd: int, cfg: Config)
    requires Carried(v, w) && WInv(w, lfd) && BServes(v, i, e, l, news, v', lfd, cfg) && QueuesFit(v'.srv.c)
    ensures |l| == |v.lines| == |Moved(w, i, e, cfg)|
    ensures forall k | 0 <= k < |l| :: Pair(v'.srv.c, l[k], Moved(w, i, e, cfg)[k])
  {
    NoLines(v, w, i, e, l, news, v', lfd, cfg);
    hide WInv, BServes, QueuesFit, Moved, Along;
    forall k | 0 <= k < |v.lines|
      ensures Pair(v'.srv.c, l[k], Moved(w, i, e, cfg)[k])
    {
      ServeClient(v, w, i, e, l, news, v', lfd, cfg, k);
      forall j': nat
        ensures AlongAt(v'.srv.c, j', l[k], Moved(w, i, e, cfg)[k])
      {
        if j' < |v'.srv.c| && v'.srv.c[j'].Peer() && v'.srv.c[j'].id == l[k].id && v'.srv.c[j'].fd == l[k].fd {
          PairServe(v, w, i, e, l, news, v', lfd, cfg, k, j');
        }
      }
    }
  }

  // ----- clients that come and go -----

  /** The line carries the client's messages, to and from whichever slot it has. */
  ghost predicate Pair(c: seq<Client>, l: Line, e: End) { Matched(l, e) && forall j: nat :: AlongAt(c, j, l, e) }

  lemma {:induction false} RemainingPairs(l: seq<Line>, d: seq<End>, c: seq<Client>)
    requires |l| == |d| && forall k | 0 <= k < |l| :: Pair(c, l[k], d[k])
    ensures |RemainingLines(l, c)| == |Remaining(d, c)|
    ensures forall k | 0 <= k < |Remaining(d, c)| :: Pair(c, RemainingLines(l, c)[k], Remaining(d, c)[k])
  {
    hide AlongAt, PeerFds;
    if l != [] {
      var n := |l| - 1;
      assert forall k | 0 <= k < n :: l[..n][k] == l[k] && d[..n][k] == d[k];
      assert Pair(c, l[n], d[n]);
      hide Pair;
      RemainingPairs(l[..n], d[..n], c);
      assert LineRemains(l[n], c) <==> Remains(d[n], c) by { PairIds(c, l[n], d[n]); }
    }
  }

  lemma PairIds(c: seq<Client>, l: Line, e: End)
    requires Pair(c, l, e)
    ensures e.id == l.id && e.fd == l.fd && e.clt == l.conn.clt
  {
    hide AlongAt;
  }

  lemma ConcatPairs(c: seq<Client>, l: seq<Line>, d: seq<End>, l': seq<Line>, d': seq<End>)
    requires |l| == |d| && forall k | 0 <= k < |l| :: Pair(c, l[k], d[k])
    requires |l'| == |d'| && forall k | 0 <= k < |l'| :: Pair(c, l'[k], d'[k])
    ensures forall k | 0 <= k < |l + l'| :: Pair(c, (l + l')[k], (d + d')[k])
  {
    hide Pair;
  }

  /** Nothing has begun on a connection that has just been authenticated. */
  lemma NewPairs(s: Srv, e: Event, s': Srv, lfd: int, cfg: Config, news: seq<Line>)
    requires ServerSpec.Step(s, e, s', lfd, cfg) && Quiet(s, e, s') && NewLines(news, s.c, s'.c) && QueuesFit(s'.c)
    ensures forall k | 0 <= k < |news| :: Pair(s'.c, news[k], Ends(news)[k])
  {
    hide ServerSpec.Step, Quiet, QueuesFit, PeerFds, Stream, IsNew, T.Newcomer, DistinctIds;
    forall k | 0 <= k < |news|
      ensures Pair(s'.c, news[k], Ends(news)[k])
    {
      assert news[k] in news;
      var d := Ends(news);
      assert d[k].id == news[k].id && d[k].fd == news[k].fd;
      assert (news[k].id, news[k].fd) in Links(d);
      forall j: nat
        ensures AlongAt(s'.c, j, news[k], d[k])
      {
        if j < |s'.c| && s'.c[j].Peer() && s'.c[j].id == news[k].id && s'.c[j].fd == news[k].fd {
          AbsentIsNew(s, s'.c[j]);
          ServeNew(s, e, s', lfd, cfg, j);
          SlotFits(s'.c, j);
          NewStreams(s'.c[j], news[k]);
        }
      }
    }
  }

  lemma AbsentIsNew(s: Srv, y: Client)
    requires y.Peer() && (y.id, y.fd) !in PeerFds(s.c)
    ensures IsNew(s, y)
  {}

  lemma NewStreams(y: Client, l: Line)
    requires NewSlot(y) && AllFit(y.tx.q)
    requires l.up == [] && l.down == [] && l.conn.off == 0 && l.conn.rbuf.None? && AllFit(l.conn.clt.queue)
    ensures Stream(y.rbuf, l.up, [], Queue(l)) && Stream(l.conn.rbuf, l.down, [], y.tx)
  {
    assert Flat([]) == [];
  }

  lemma PairsCarry(v: Wire, w: World)
    requires w.srv == v.srv && w.running == v.running && QueuesFit(v.srv.c)
    requires |w.ends| == |v.lines| && forall k | 0 <= k < |v.lines| :: Pair(v.srv.c, v.lines[k], w.ends[k])
    ensures Carried(v, w)
  {
    hide AlongAt, QueuesFit;
  }

  lemma ServeBytes(v: Wire, w: World, a: BAct, v': Wire, lfd: int, cfg: Config) returns (w': World, d: seq<End>)
    requires Carried(v, w) && WInv(w, lfd) && a.BServe? && BServes(v, a.i, a.e, a.l, a.news, v', lfd, cfg)
    ensures Carried(v', w') && JServe(w, a.i, a.e, d, Ends(a.news), w', lfd, cfg)
  {
    d := Moved(w, a.i, a.e, cfg);
    var news := Ends(a.news);
    w' := World(v'.srv, Remaining(d, v'.srv.c) + news, v'.running);
    hide WInv, QueuesFit, AlongAt, ServerSpec.Step, PeerFds, Unhurried, Shifted, Moves, Moved, Pair, Attended, Quiet;
    hide RemainingLines, Remaining, Arrivals;
    StepKeepsFits(v.srv, a.e, v'.srv, lfd, cfg);
    ServeMoves(v, w, a.i, a.e, a.l, a.news, v', lfd, cfg);
    ServeAlong(v, w, a.i, a.e, a.l, a.news, v', lfd, cfg);
    RemainingPairs(a.l, d, v'.srv.c);
    NewPairs(v.srv, a.e, v'.srv, lfd, cfg, a.news);
    ConcatPairs(v'.srv.c, RemainingLines(a.l, v'.srv.c), Remaining(d, v'.srv.c), a.news, news);
    PairsCarry(v', w');
  }

  lemma NoLines(v: Wire, w: World, i: nat, e: Event, l: seq<Line>, news: seq<Line>, v': Wire, lfd: int, cfg: Config)
    requires Carried(v, w) && BServes(v, i, e, l, news, v', lfd, cfg)
    ensures |l| == |v.lines| && |Moved(w, i, e, cfg)| == |w.ends|
  {
    hide AlongAt, QueuesFit, BServes, Takes, Gives, WrittenBytes;
    EventIs(v, i, e, l, news, v', lfd, cfg);
  }

  lemma ServeClient(v: Wire, w: World, i: nat, e: Event, l: seq<Line>, news: seq<Line>, v': Wire, lfd: int, cfg: Config,
          k: nat)
    requires Carried(v, w) && BServes(v, i, e, l, news, v', lfd, cfg) && k < |v.lines|
    ensures |l| == |v.lines| && |Moved(w, i, e, cfg)| == |w.ends|
    ensures l[k].id == v.lines[k].id && l[k].fd == v.lines[k].fd && Matched(l[k], Moved(w, i, e, cfg)[k])
  {
    hide AlongAt, QueuesFit, BServes, Takes, Gives, WrittenBytes;
    EventIs(v, i, e, l, news, v', lfd, cfg);
  }

  lemma ServeMoves(v: Wire, w: World, i: nat, e: Event, l: seq<Line>, news: seq<Line>, v': Wire, lfd: int, cfg: Config)
    requires Carried(v, w) && BServes(v, i, e, l, news, v', lfd, cfg)
    ensures Moves(w, i, e, Moved(w, i, e, cfg), cfg)
  {
    EventIs(v, i, e, l, news, v', lfd, cfg);
    if About(v, i, e) {
      if e.Input? { ReadTakes(v, w, i, e, cfg); }
    } else {
      MovedIs(w, i, e, cfg);
    }
    hide AlongAt, QueuesFit, ServerSpec.Step, PeerFds, Unhurried, Completed, Stream, Feed, WrittenBytes;
  }

  // ----- every step -----

  ghost predicate MayJStep(w: World, w': World, lfd: int, cfg: Config)
    { w' == w || exists b :: JStep(w, b, w', lfd, cfg) }

  lemma JMade(w: World, w': World, lfd: int, cfg: Config)
    ensures w' == w ==> MayJStep(w, w', lfd, cfg)
    ensures forall i | JSend(w, i, w') :: MayJStep(w, w', lfd, cfg)
    ensures forall i, e, l, news | JServe(w, i, e, l, news, w', lfd, cfg) :: MayJStep(w, w', lfd, cfg)
    ensures forall i, env | JReceive(w, i, env, w') :: MayJStep(w, w', lfd, cfg)
    ensures forall i, k, src, env | JAccept(w, i, k, src, env, w') :: MayJStep(w, w', lfd, cfg)
    ensures forall i, c | JChat(w, i, c, w') :: MayJStep(w, w', lfd, cfg)
  {
    hide JSend, JServe, JReceive, JAccept, JChat;
    assert forall i | JSend(w, i, w') :: JStep(w, Send(i), w', lfd, cfg);
    assert forall i, e, l, news | JServe(w, i, e, l, news, w', lfd, cfg) ::
        JStep(w, Serve(i, e, l, news), w', lfd, cfg);
    assert forall i, env | JReceive(w, i, env, w') :: JStep(w, Receive(i, env), w', lfd, cfg);
    assert forall i, k, src, env | JAccept(w, i, k, src, env, w') :: JStep(w, Accept(i, k, src, env), w', lfd, cfg);
    assert forall i, c | JChat(w, i, c, w') :: JStep(w, Chat(i, c), w', lfd, cfg);
  }

  /** Every read or write is a step with whole messages, or changes nothing of them. */
  lemma BStepSim(v: Wire, w: World, a: BAct, v': Wire, lfd: int, cfg: Config) returns (w': World)
    requires Carried(v, w) && WInv(w, lfd) && BStep(v, a, v', lfd, cfg)
    ensures Carried(v', w') && MayJStep(w, w', lfd, cfg)
  {
    InvParts(w, lfd);
    hide Carried, WInv, BWrites, BServes, BReads, BAccepts, BChats, JSend, JServe, JReceive, JAccept, JChat, JStep;
    hide MayJStep, FdInv, PeerInv, Linked;
    match a {
    case BWrite(i, n) => w' := WriteSim(v, w, i, n, v');
    case BServe(i, e, l, news) =>
      var d;
      w', d := ServeBytes(v, w, a, v', lfd, cfg);
    case BRead(i, n, env) => w' := ReadSim(v, w, i, n, env, v');
    case BAccept(i, k, src, env) => w' := AcceptBytes(v, w, a, v');
    case BChat(i, c) => w' := ChatBytes(v, w, a, v');
    }
    JMade(w, w', lfd, cfg);
  }

  // ----- runs -----

  /** As before, with nothing begun in either direction. */
  ghost predicate BInitial(v: Wire, lfd: int) {
    && JInitial(Plain(v), lfd) && (forall x <- v.srv.c | x.Peer() :: x.rbuf.None?) && QueuesFit(v.srv.c)
    && forall l <- v.lines ::
         l.up == [] && l.down == [] && l.conn.off == 0 && l.conn.rbuf.None? && AllFit(l.conn.clt.queue)
  }

  lemma InitialCarried(v: Wire, lfd: int)
    requires BInitial(v, lfd)
    ensures Carried(v, Plain(v))
  {
    hide QueuesFit, Linked, PeerInv;
    forall i, j: nat | 0 <= i < |v.lines|
      ensures AlongAt(v.srv.c, j, v.lines[i], Ends(v.lines)[i])
    {
      assert v.lines[i] in v.lines;
      if j < |v.srv.c| && v.srv.c[j].Peer() {
        assert v.srv.c[j] in v.srv.c;
        assert Flat([]) == [];
      }
    }
    hide FdInv, DistinctIds, T.Newcomer;
  }

  ghost predicate BRun(vs: seq<Wire>, acts: seq<BAct>, lfd: int, cfg: Config) {
    |vs| == |acts| + 1 && forall k | 0 <= k < |acts| :: BStep(vs[k], acts[k], vs[k + 1], lfd, cfg)
  }

  ghost predicate NoWireWraps(vs: seq<Wire>) { forall v <- vs :: Unwrapped(v.srv) }

  lemma GoodMay(w: World, n: T.Net, w': World, lfd: int, cfg: Config) returns (n': T.Net)
    requires Good(w, n, lfd) && MayJStep(w, w', lfd, cfg) && Unwrapped(w.srv) && Unwrapped(w'.srv)
    ensures Good(w', n', lfd) && MayStep(n, n')
  {
    hide Good, JStep, MayStep, Unwrapped;
    if w' == w {
      n' := n;
      Still(n);
    } else {
      var b :| JStep(w, b, w', lfd, cfg);
      n' := JStepSim(w, n, b, lfd, cfg, w');
    }
  }

  lemma {:induction false} BRunSim(vs: seq<Wire>, acts: seq<BAct>, lfd: int, cfg: Config, k: nat)
    returns (w: World, n: T.Net)
    requires BRun(vs, acts, lfd, cfg) && BInitial(vs[0], lfd) && NoWireWraps(vs) && k <= |acts|
    ensures Carried(vs[k], w) && Good(w, n, lfd)
    ensures w.srv == vs[k].srv && w.running == vs[k].running
  {
    hide Good, BStep, MayJStep, MayStep, Unwrapped;
    assert vs[k] in vs;
    if k == 0 {
      InitialCarried(vs[0], lfd);
      w := Plain(vs[0]);
      n := InitialGood(w, lfd);
      hide Carried;
    } else {
      hide BInitial, WInv, QueuesFit, AlongAt;
      assert vs[k - 1] in vs;
      var w0, n0 := BRunSim(vs, acts, lfd, cfg, k - 1);
      assert BStep(vs[k - 1], acts[k - 1], vs[k], lfd, cfg);
      GoodParts(w0, n0, lfd);
      w := BStepSim(vs[k - 1], w0, acts[k - 1], vs[k], lfd, cfg);
      n := GoodMay(w0, n0, w, lfd, cfg);
    }
  }

  /** The clients, by id. */
  function Peers(v: Wire): map<u64, C.Clt> { Clients(Ends(v.lines)) }

  lemma ExactOf(v: Wire, w: World, n: T.Net, lfd: int, key: T.Key)
    requires Carried(v, w) && Good(w, n, lfd) && key in v.running
    ensures key.q in Peers(v) && key.p in Peers(v) && F.Downloads(Peers(v)[key.q], key.p, key.oid, v.running[key])
    ensures forall l <- v.lines :: !l.conn.clt.dead
  {
    PlainView(v, w);
    forall l <- v.lines
      ensures !l.conn.clt.dead
    {
      var i :| 0 <= i < |v.lines| && v.lines[i] == l;
      Known(w, n, i, lfd);
    }
    hide WInv, Clients, F.Downloads, Total, T.Core, T.CountsOk, T.OwedOk, T.AllApart, AlongAt, QueuesFit;
  }

  /** Down to the bytes: in every run of clients and server, with reads and writes of any size on every
      connection, the part file of a running download is exactly the beginning of the source. */
  lemma WireExactly(vs: seq<Wire>, acts: seq<BAct>, lfd: int, cfg: Config, k: nat, key: T.Key)
    requires BRun(vs, acts, lfd, cfg) && BInitial(vs[0], lfd) && NoWireWraps(vs) && k <= |acts|
    requires key in vs[k].running
    ensures key.q in Peers(vs[k]) && key.p in Peers(vs[k])
    ensures F.Downloads(Peers(vs[k])[key.q], key.p, key.oid, vs[k].running[key])
    ensures forall l <- vs[k].lines :: !l.conn.clt.dead
  {
    hide Good, Carried, BStep, BInitial, Peers, F.Downloads;
    var w, n := BRunSim(vs, acts, lfd, cfg, k);
    ExactOf(vs[k], w, n, lfd, key);
  }

  /** And a download that was running and no longer is has been delivered whole. */
  lemma WireWhole(vs: seq<Wire>, acts: seq<BAct>, lfd: int, cfg: Config, k: nat, key: T.Key)
    requires BRun(vs, acts, lfd, cfg) && BInitial(vs[0], lfd) && NoWireWraps(vs) && k < |acts|
    requires key in vs[k].running && key !in vs[k + 1].running
    ensures key.q in Peers(vs[k]) && key.q in Peers(vs[k + 1])
    ensures C.FindTransfer(Peers(vs[k])[key.q].transfers, C.Download, key.p, key.oid) < |Peers(vs[k])[key.q].transfers|
    ensures var d := F.Entry(Peers(vs[k])[key.q], key.p, key.oid);
            && d.offset == d.size && d.name.Some?
            && d.name.value in Peers(vs[k + 1])[key.q].files
            && Peers(vs[k + 1])[key.q].files[d.name.value] == vs[k].running[key]
  {
    hide Good, BStep, BInitial, MayJStep, MayStep, C.FindTransfer, Unwrapped;
    assert vs[k] in vs && vs[k + 1] in vs;
    var w, n := BRunSim(vs, acts, lfd, cfg, k);
    assert BStep(vs[k], acts[k], vs[k + 1], lfd, cfg);
    GoodParts(w, n, lfd);
    hide WInv, AlongAt, QueuesFit;
    var w' := BStepSim(vs[k], w, acts[k], vs[k + 1], lfd, cfg);
    var n' := GoodMay(w, n, w', lfd, cfg);
    PlainView(vs[k], w);
    PlainView(vs[k + 1], w');
    hide Clients;
    EndOf(w, n, w', n', lfd, key);
  }
}
