/** Clients, server and the byte streams between them.  Every read and write of any size is a step of clients
    and server with whole messages in between, or changes nothing of them. */
module JointBytes {
  import opened Bytes
  import opened Message
  import opened Channel
  import opened Streams
  import opened UserDb
  import opened ServerSpec
  import opened ServerInv
  import opened ServerIds
  import opened ServerPeers
  import opened ServerAuth
  import opened ServerQueues
  import opened Joint
  import opened JointSlots
  import C = ClientSpec
  import I = ClientIo
  import L = ClientLimits
  import T = Transfers

  /** A client with its connection, and the bytes on their way from it and to it. */
  datatype Line = Line(id: u64, fd: int, conn: I.Conn, up: seq<byte>, down: seq<byte>)

  datatype Wire = Wire(srv: Srv, lines: seq<Line>, running: map<T.Key, seq<byte>>)

  /** The clients without what is on its way. */
  function Ends(l: seq<Line>): seq<End> {
    seq(|l|, i requires 0 <= i < |l| => End(l[i].id, l[i].fd, l[i].conn.clt, [], []))
  }

  function Plain(v: Wire): World { World(v.srv, Ends(v.lines), v.running) }

  // ----- steps -----

  datatype BAct =
    | BWrite(i: nat, n: nat)
    | BServe(i: nat, e: Event, l: seq<Line>, news: seq<Line>)
    | BRead(i: nat, n: nat, env: C.Env)
    | BAccept(i: nat, k: T.Key, src: seq<byte>, env: C.Env)
    | BChat(i: nat, c: C.Clt)

  function Queue(l: Line): Tx { Tx(l.conn.clt.queue, l.conn.off) }

  /** The bytes that an event of the server reads from a client or writes to it. */
  ghost predicate Shifted(v: Wire, i: nat, e: Event, l: seq<Line>) {
    var c := v.srv.c;
    if e.Input? && e.i < |c| && c[e.i].Peer() then
      && i < |v.lines| && v.lines[i].id == c[e.i].id && v.lines[i].fd == c[e.i].fd && e.chunk <= v.lines[i].up
      && l == v.lines[i := v.lines[i].(up := v.lines[i].up[|e.chunk|..])]
    else if e.Output? && e.i < |c| && c[e.i].Peer() then
      && i < |v.lines| && v.lines[i].id == c[e.i].id && v.lines[i].fd == c[e.i].fd
      && c[e.i].tx.Ok() && c[e.i].tx.q != [] && 0 < e.n <= MSG_HDR_SIZE + |c[e.i].tx.q[0].pay| - c[e.i].tx.off
      && l == v.lines[i := v.lines[i].(down := v.lines[i].down + WrittenBytes(c[e.i].tx, e.n))]
    else l == v.lines
  }

  /** A client writes any number of bytes. */
  ghost predicate BWrites(v: Wire, i: nat, n: nat, v': Wire) {
    && i < |v.lines|
    && var l := v.lines[i];
       && l.conn.Ok() && Queue(l).q != [] && 0 < n <= MSG_HDR_SIZE + |Queue(l).q[0].pay| - l.conn.off
       && v' == v.(lines := v.lines[i := l.(conn := I.WriteSrv(l.conn, Room(n)),
                                            up := l.up + WrittenBytes(Queue(l), n))])
  }

  predicate LineRemains(l: Line, c: seq<Client>) { (l.id, l.fd) in PeerFds(c) }

  /** The clients whose connection is still authenticated under their id. */
  function RemainingLines(l: seq<Line>, c: seq<Client>): seq<Line> {
    if l == [] then []
    else var x := l[|l| - 1]; RemainingLines(l[..|l| - 1], c) + if LineRemains(x, c) then [x] else []
  }

  /** One client for each connection that has become authenticated, with no byte on its way. */
  ghost predicate NewLines(news: seq<Line>, c: seq<Client>, c': seq<Client>) {
    && Arrivals(Ends(news), c, c')
    && forall x <- news ::
         x.up == [] && x.down == [] && x.conn.off == 0 && x.conn.rbuf.None? && AllFit(x.conn.clt.queue)
  }

  /** The server does anything that does not interrupt a download, and discards nothing of its connections. */
  ghost predicate BServes(v: Wire, i: nat, e: Event, l: seq<Line>, news: seq<Line>, v': Wire, lfd: int, cfg: Config) {
    && ServerSpec.Step(v.srv, e, v'.srv, lfd, cfg) && Shifted(v, i, e, l) && Unhurried(v.srv, e, cfg)
    && Attended(v.running, v.srv.c, v'.srv.c) && Quiet(v.srv, e, v'.srv) && NewLines(news, v.srv.c, v'.srv.c)
    && v'.running == v.running && v'.lines == RemainingLines(l, v'.srv.c) + news
  }

  /** A client reads any number of bytes. */
  ghost predicate BReads(v: Wire, i: nat, n: nat, env: C.Env, v': Wire) {
    && i < |v.lines| && env.Ok() && env.HostOk() && CanRead(v.lines[i], n)
    && var l := v.lines[i];
       var r := Feed(Prepared(l.conn.rbuf), l.down[..n]);
       && (r.Complete? && r.m.mtype == OFFER_REQ ==> T.Key(r.m.dst, r.m.src, C.NewDownload(r.m, env).oid) !in v.running)
       && v' == Wire(v.srv, v.lines[i := l.(conn := I.ReadSrv(l.conn, Data(l.down[..n]), env), down := l.down[n..])],
                     if r.Complete? && T.Finishes(r.m) then v.running - {T.KeyOf(r.m)} else v.running)
  }

  /** There are `n` bytes to read, and there is room for them. */
  predicate CanRead(l: Line, n: nat) {
    l.conn.Ok() && 0 < n <= |l.down| && n <= Prepared(l.conn.rbuf).size - |Prepared(l.conn.rbuf).got|
  }

  ghost predicate BAccepts(v: Wire, i: nat, k: T.Key, src: seq<byte>, env: C.Env, v': Wire) {
    && i < |v.lines| && v.lines[i].id == k.q && T.CanAccept(View(Plain(v)), k, src) && env.Ok() && env.HostOk()
    && var (c', reply) := C.AcceptOffer(v.lines[i].conn.clt, k.p, k.oid, env);
       v' == v.(lines := v.lines[i := WithClient(v.lines[i], C.Queued(c', reply))], running := v.running[k := src])
  }

  ghost predicate BChats(v: Wire, i: nat, c: C.Clt, v': Wire) {
    && i < |v.lines| && v.lines[i].id in Clients(Ends(v.lines)) && T.Chats(View(Plain(v)), v.lines[i].id, c)
    && AllFit(c.queue)
    && v' == v.(lines := v.lines[i := WithClient(v.lines[i], c)])
  }

  ghost predicate BStep(v: Wire, a: BAct, v': Wire, lfd: int, cfg: Config) {
    match a
    case BWrite(i, n) => BWrites(v, i, n, v')
    case BServe(i, e, l, news) => BServes(v, i, e, l, news, v', lfd, cfg)
    case BRead(i, n, env) => BReads(v, i, n, env, v')
    case BAccept(i, k, src, env) => BAccepts(v, i, k, src, env, v')
    case BChat(i, c) => BChats(v, i, c, v')
  }

  function WithClient(l: Line, c: C.Clt): Line { l.(conn := l.conn.(clt := c)) }

  // ----- whole messages -----

  /** The bytes between client and slot are the messages `e` says. */
  ghost predicate Along(x: Client, l: Line, e: End) {
    && Matched(l, e)
    && Stream(x.rbuf, l.up, e.up, Queue(l)) && Stream(l.conn.rbuf, l.down, e.down, x.tx)
  }

  ghost predicate AlongAt(c: seq<Client>, j: nat, l: Line, e: End) {
    j < |c| && c[j].Peer() && c[j].id == l.id && c[j].fd == l.fd ==> Along(c[j], l, e)
  }

  predicate Matched(l: Line, e: End) { e.id == l.id && e.fd == l.fd && e.clt == l.conn.clt }

  ghost predicate Carried(v: Wire, w: World) {
    && w.srv == v.srv && w.running == v.running && |w.ends| == |v.lines| && QueuesFit(v.srv.c)
    && (forall i | 0 <= i < |v.lines| :: Matched(v.lines[i], w.ends[i]))
    && forall i, j: nat | 0 <= i < |v.lines| :: AlongAt(v.srv.c, j, v.lines[i], w.ends[i])
  }

  lemma {:induction false} SameClients(a: seq<End>, b: seq<End>)
    requires |b| == |a| && forall i | 0 <= i < |a| :: b[i].id == a[i].id && b[i].clt == a[i].clt
    ensures Clients(b) == Clients(a)
  {
    if a != [] { SameClients(a[..|a| - 1], b[..|a| - 1]); }
  }

  lemma PlainView(v: Wire, w: World)
    requires Carried(v, w)
    ensures View(Plain(v)) == View(w) && Clients(Ends(v.lines)) == Clients(w.ends)
  {
    SameClients(w.ends, Ends(v.lines));
    hide AlongAt, QueuesFit, Clients;
  }

  /** One line and its client change, and no slot. */
  lemma LineStep(v: Wire, w: World, i: nat, l: Line, e: End, run': map<T.Key, seq<byte>>)
    requires Carried(v, w) && i < |v.lines| && Matched(l, e)
    requires forall j: nat :: AlongAt(v.srv.c, j, v.lines[i], w.ends[i]) ==> AlongAt(v.srv.c, j, l, e)
    ensures Carried(Wire(v.srv, v.lines[i := l], run'), World(w.srv, w.ends[i := e], run'))
  {
    hide AlongAt, QueuesFit;
    var v', w' := Wire(v.srv, v.lines[i := l], run'), World(w.srv, w.ends[i := e], run');
    forall k, j: nat | 0 <= k < |v'.lines|
      ensures AlongAt(v'.srv.c, j, v'.lines[k], w'.ends[k])
    {
      assert AlongAt(v.srv.c, j, v.lines[k], w.ends[k]);
    }
  }

  // ----- the client's side -----

  lemma WriteSim(v: Wire, w: World, i: nat, n: nat, v': Wire) returns (w': World)
    requires Carried(v, w) && BWrites(v, i, n, v')
    ensures Carried(v', w') && (w' == w || JSend(w, i, w'))
  {
    hide QueuesFit, Marshal, Stream;
    var l, e, l' := v.lines[i], w.ends[i], v'.lines[i];
    WriteQueue(l, n);
    hide I.WriteSrv;
    var t := Queue(l);
    var done := l.conn.off + n == MSG_HDR_SIZE + |t.q[0].pay|;
    var e' := if done then e.(clt := C.Dequeue(e.clt), up := e.up + [t.q[0]]) else e;
    assert Queue(l') == Written(t, n);
    forall j: nat | AlongAt(v.srv.c, j, l, e)
      ensures AlongAt(v.srv.c, j, l', e')
    {
      WriteAlong(v.srv.c, j, l, e, n);
    }
    hide AlongAt;
    LineStep(v, w, i, l', e', w.running);
    w' := World(w.srv, w.ends[i := e'], w.running);
    if !done { assert w' == w; }
  }

  lemma WriteAlong(c: seq<Client>, j: nat, l: Line, e: End, n: nat)
    requires AlongAt(c, j, l, e) && e.clt == l.conn.clt && l.conn.Ok()
    requires Queue(l).q != [] && 0 < n <= MSG_HDR_SIZE + |Queue(l).q[0].pay| - l.conn.off
    ensures var l' := l.(conn := I.WriteSrv(l.conn, Room(n)), up := l.up + WrittenBytes(Queue(l), n));
            var e' := if l.conn.off + n == MSG_HDR_SIZE + |Queue(l).q[0].pay|
                      then e.(clt := C.Dequeue(e.clt), up := e.up + [Queue(l).q[0]]) else e;
            AlongAt(c, j, l', e')
  {
    hide Stream, WrittenBytes;
    WriteQueue(l, n);
    if j < |c| && c[j].Peer() && c[j].id == l.id && c[j].fd == l.fd { StreamWrite(c[j].rbuf, l.up, e.up, Queue(l), n); }
    hide I.WriteSrv, Written, C.Dequeue;
  }

  lemma WriteQueue(l: Line, n: nat)
    requires l.conn.Ok() && Queue(l).q != [] && 0 < n <= MSG_HDR_SIZE + |Queue(l).q[0].pay| - l.conn.off
    ensures var conn := I.WriteSrv(l.conn, Room(n));
            && Tx(conn.clt.queue, conn.off) == Written(Queue(l), n) && conn.rbuf == l.conn.rbuf
            && conn.clt == if l.conn.off + n == MSG_HDR_SIZE + |Queue(l).q[0].pay| then C.Dequeue(l.conn.clt)
                           else l.conn.clt
  {}

  /** A client changes and its queue grows. */
  lemma ClientAlong(c: seq<Client>, j: nat, l: Line, e: End, clt: C.Clt)
    requires AlongAt(c, j, l, e) && l.conn.clt.queue <= clt.queue && AllFit(clt.queue)
    ensures AlongAt(c, j, WithClient(l, clt), e.(clt := clt))
  {
    if j < |c| && c[j].Peer() && c[j].id == l.id && c[j].fd == l.fd {
      StreamEnqueue(c[j].rbuf, l.up, e.up, Queue(l), Queue(WithClient(l, clt)));
    }
    hide Stream;
  }

  lemma ClientSim(v: Wire, w: World, i: nat, clt: C.Clt, run': map<T.Key, seq<byte>>)
    requires Carried(v, w) && i < |v.lines| && v.lines[i].conn.clt.queue <= clt.queue && AllFit(clt.queue)
    ensures Carried(Wire(v.srv, v.lines[i := WithClient(v.lines[i], clt)], run'),
                    World(w.srv, w.ends[i := w.ends[i].(clt := clt)], run'))
  {
    var l, e := v.lines[i], w.ends[i];
    forall j: nat | AlongAt(v.srv.c, j, l, e)
      ensures AlongAt(v.srv.c, j, WithClient(l, clt), e.(clt := clt))
    {
      ClientAlong(v.srv.c, j, l, e, clt);
    }
    hide AlongAt, QueuesFit, AllFit;
    LineStep(v, w, i, WithClient(l, clt), e.(clt := clt), run');
  }

  /** Every client has its slot. */
  lemma SlotOf(v: Wire, w: World, i: nat) returns (j: nat)
    requires Carried(v, w) && Linked(w.srv.c, w.ends) && i < |v.lines|
    ensures j < |v.srv.c| && v.srv.c[j].Peer() && v.srv.c[j].id == v.lines[i].id && v.srv.c[j].fd == v.lines[i].fd
    ensures Along(v.srv.c[j], v.lines[i], w.ends[i])
  {
    var x := (w.ends[i].id, w.ends[i].fd);
    assert x in Links(w.ends) && x in PeerFds(v.srv.c);
    j :| 0 <= j < |v.srv.c| && v.srv.c[j].Peer() && x == (v.srv.c[j].id, v.srv.c[j].fd);
    assert AlongAt(v.srv.c, j, v.lines[i], w.ends[i]);
  }

  /** What a read makes of a line and its client. */
  lemma ReadAlong(c: seq<Client>, j: nat, l: Line, e: End, n: nat, env: C.Env, l': Line, e': End)
    requires AlongAt(c, j, l, e) && e.clt == l.conn.clt && env.Ok() && AllFit(l.conn.clt.queue) && CanRead(l, n)
    requires l' == l.(conn := I.ReadSrv(l.conn, Data(l.down[..n]), env), down := l.down[n..])
    requires var r := Feed(Prepared(l.conn.rbuf), l.down[..n]);
             e' == if r.Complete? && e.down != [] then e.(clt := C.ProcessSrvMsg(e.clt, r.m, env), down := e.down[1..])
                   else e
    ensures AlongAt(c, j, l', e')
  {
    hide Feed, C.ProcessSrvMsg, Stream, AllFit;
    if j < |c| && c[j].Peer() && c[j].id == l.id && c[j].fd == l.fd {
      var chunk := l.down[..n];
      assert chunk + l.down[n..] == l.down && chunk[..|chunk|] == chunk;
      StreamRead(l.conn.rbuf, chunk, l.down[n..], e.down, c[j].tx);
      var r := Feed(Prepared(l.conn.rbuf), chunk);
      if r.Complete? {
        I.QueueGrows(l.conn.clt, r.m, env);
        L.ProcessFits(l.conn.clt, r.m, env);
        StreamEnqueue(c[j].rbuf, l.up, e.up, Queue(l), Queue(l'));
      }
    }
  }

  lemma QueueFits(x: Client, l: Line, e: End)
    requires Along(x, l, e)
    ensures AllFit(l.conn.clt.queue)
  {}

  lemma ReadSim(v: Wire, w: World, i: nat, n: nat, env: C.Env, v': Wire) returns (w': World)
    requires Carried(v, w) && Linked(w.srv.c, w.ends) && BReads(v, i, n, env, v')
    ensures Carried(v', w') && (w' == w || JReceive(w, i, env, w'))
  {
    hide QueuesFit, Feed, C.ProcessSrvMsg, T.Finishes, C.NewDownload, I.ReadSrv, Linked, T.KeyOf;
    var l, e := v.lines[i], w.ends[i];
    var r := Feed(Prepared(l.conn.rbuf), l.down[..n]);
    var j0 := SlotOf(v, w, i);
    QueueFits(v.srv.c[j0], l, e);
    ReadOutcome(v.srv.c[j0], l, e, n);
    var l' := v'.lines[i];
    var e' := if r.Complete? then e.(clt := C.ProcessSrvMsg(e.clt, r.m, env), down := e.down[1..]) else e;
    forall j: nat | AlongAt(v.srv.c, j, l, e)
      ensures AlongAt(v.srv.c, j, l', e')
    {
      ReadAlong(v.srv.c, j, l, e, n, env, l', e');
    }
    ReadClient(l, e, n, env);
    hide AlongAt, Along;
    LineStep(v, w, i, l', e', v'.running);
    w' := World(w.srv, w.ends[i := e'], v'.running);
    if !r.Complete? { assert w' == w; }
  }

  /** A read completes the next message on its way, if any. */
  lemma ReadOutcome(x: Client, l: Line, e: End, n: nat)
    requires Along(x, l, e) && CanRead(l, n)
    ensures match Feed(Prepared(l.conn.rbuf), l.down[..n])
            case Complete(m) => e.down != [] && m == e.down[0]
            case Pending(_) => true
            case Died => false
  {
    hide Feed;
    assert l.down[..n] + l.down[n..] == l.down;
    StreamRead(l.conn.rbuf, l.down[..n], l.down[n..], e.down, x.tx);
  }

  lemma ReadClient(l: Line, e: End, n: nat, env: C.Env)
    requires CanRead(l, n) && e.clt == l.conn.clt
    requires !Feed(Prepared(l.conn.rbuf), l.down[..n]).Died?
    ensures var r := Feed(Prepared(l.conn.rbuf), l.down[..n]);
            I.ReadSrv(l.conn, Data(l.down[..n]), env).clt == if r.Complete? then C.ProcessSrvMsg(e.clt, r.m, env)
                                                             else e.clt
  {
    hide Feed, C.ProcessSrvMsg;
    var chunk := l.down[..n];
    assert chunk[..|chunk|] == chunk;
  }
}
