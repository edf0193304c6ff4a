/** Clients, the server itself and the messages between them.  While the clients that take part in a download
    stay authenticated, and others come and go, every run of all of them together is a run of the transfers over
    a bag of messages. */
module Joint {
  import opened Bytes
  import opened Message
  import opened Channel
  import opened UserFile
  import opened UserDb
  import opened ServerSpec
  import opened ServerInv
  import opened ServerIds
  import opened ServerPeers
  import opened ServerRuns
  import opened ServerAuth
  import C = ClientSpec
  import T = Transfers

  // ----- clients -----

  /** The client of an authenticated connection, with what is on its way from it and to it. */
  datatype End = End(id: u64, fd: int, clt: C.Clt, up: seq<Msg>, down: seq<Msg>)

  datatype World = World(srv: Srv, ends: seq<End>, running: map<T.Key, seq<byte>>)

  ghost predicate DistinctIds(l: seq<End>) { forall i, j | 0 <= i < j < |l| :: l[i].id != l[j].id }

  function Clients(l: seq<End>): map<u64, C.Clt> {
    if l == [] then map[] else Clients(l[..|l| - 1])[l[|l| - 1].id := l[|l| - 1].clt]
  }

  lemma {:induction false} ClientAt(l: seq<End>, i: nat)
    requires DistinctIds(l) && i < |l|
    ensures l[i].id in Clients(l) && Clients(l)[l[i].id] == l[i].clt
  {
    if i < |l| - 1 { ClientAt(l[..|l| - 1], i); }
  }

  lemma {:induction false} ClientFrom(l: seq<End>, p: u64) returns (i: nat)
    requires p in Clients(l)
    ensures i < |l| && l[i].id == p
  {
    if p == l[|l| - 1].id { i := |l| - 1; } else { i := ClientFrom(l[..|l| - 1], p); }
  }

  lemma ClientUpdate(l: seq<End>, i: nat, e: End)
    requires DistinctIds(l) && i < |l| && e.id == l[i].id
    ensures DistinctIds(l[i := e]) && Clients(l[i := e]) == Clients(l)[e.id := e.clt]
  {
    var l' := l[i := e];
    forall p
      ensures p in Clients(l') <==> p in Clients(l)[e.id := e.clt]
      ensures p in Clients(l') ==> Clients(l')[p] == Clients(l)[e.id := e.clt][p]
    {
      if p in Clients(l') {
        var j := ClientFrom(l', p);
        ClientAt(l', j); ClientAt(l, j);
      } else if p in Clients(l)[e.id := e.clt] {
        if p == e.id { ClientAt(l', i); } else { var j := ClientFrom(l, p); ClientAt(l', j); }
      }
    }
  }

  lemma LinksUpdate(l: seq<End>, i: nat, e: End)
    requires i < |l| && e.id == l[i].id && e.fd == l[i].fd
    ensures Links(l[i := e]) == Links(l)
  {
    var l' := l[i := e];
    assert forall j | 0 <= j < |l| :: l'[j].id == l[j].id && l'[j].fd == l[j].fd;
  }

  // ----- counting messages on their way -----

  function Occ(q: seq<Msg>, m: Msg): nat { multiset(q)[m] }

  function Stamped(q: seq<Msg>, p: u64): seq<Msg> {
    seq(|q|, i requires 0 <= i < |q| => q[i].(src := p))
  }

  function EndCount(e: End, m: Msg): nat { Occ(Stamped(e.up, e.id), m) + Occ(e.down, m) }

  function EndsTotal(l: seq<End>, m: Msg): nat {
    if l == [] then 0 else EndsTotal(l[..|l| - 1], m) + EndCount(l[|l| - 1], m)
  }

  function SlotCount(x: Client, m: Msg): nat { if x.Peer() then Occ(x.tx.q, m) else 0 }

  function SlotsTotal(c: seq<Client>, m: Msg): nat {
    if c == [] then 0 else SlotsTotal(c[..|c| - 1], m) + SlotCount(c[|c| - 1], m)
  }

  function Total(w: World, m: Msg): nat { EndsTotal(w.ends, m) + SlotsTotal(w.srv.c, m) }

  function Is(m: Msg, x: Msg): nat { if m == x then 1 else 0 }

  lemma OccHead(q: seq<Msg>, m: Msg)
    requires q != []
    ensures Occ(q, m) == Occ(q[1..], m) + Is(m, q[0])
  {
    assert q == [q[0]] + q[1..];
  }

  lemma OccLast(q: seq<Msg>, x: Msg, m: Msg)
    ensures Occ(q + [x], m) == Occ(q, m) + Is(m, x)
  {}

  lemma StampedHead(q: seq<Msg>, p: u64, m: Msg)
    requires q != []
    ensures Occ(Stamped(q, p), m) == Occ(Stamped(q[1..], p), m) + Is(m, q[0].(src := p))
  {
    assert Stamped(q, p)[1..] == Stamped(q[1..], p);
    OccHead(Stamped(q, p), m);
  }

  lemma StampedLast(q: seq<Msg>, p: u64, x: Msg, m: Msg)
    ensures Occ(Stamped(q + [x], p), m) == Occ(Stamped(q, p), m) + Is(m, x.(src := p))
  {
    assert Stamped(q + [x], p) == Stamped(q, p) + [x.(src := p)];
  }

  lemma {:induction false} EndsUpdate(l: seq<End>, i: nat, e: End, m: Msg)
    requires i < |l|
    ensures EndsTotal(l[i := e], m) + EndCount(l[i], m) == EndsTotal(l, m) + EndCount(e, m)
  {
    hide EndCount;
    var k := |l| - 1;
    if i < k {
      assert l[i := e][..k] == l[..k][i := e];
      EndsUpdate(l[..k], i, e, m);
    } else {
      assert l[i := e][..k] == l[..k];
    }
  }

  /** No slot gains but slot `k`, at most `d`. */
  lemma {:induction false} SlotsLe(c: seq<Client>, c': seq<Client>, m: Msg, k: nat, d: int)
    requires |c'| == |c|
    requires forall j | 0 <= j < |c| :: SlotCount(c'[j], m) <= SlotCount(c[j], m) + if j == k then d else 0
    ensures SlotsTotal(c', m) <= SlotsTotal(c, m) + if k < |c| then d else 0
  {
    hide SlotCount;
    if c != [] { SlotsLe(c[..|c| - 1], c'[..|c| - 1], m, k, d); }
  }

  // ----- the state of everything -----

  /** What can be on its way to client `p` since its connection has been authenticated. */
  predicate Fine(p: u64, x: Msg) {
    && x.mtype != LOGOUT_RES
    && if x.mtype == LOGIN_RES then C.AttrAt(Attrs(x), 0, OK).Some? else x.dst == p
  }

  ghost predicate AllFine(p: u64, q: seq<Msg>) { forall x <- q :: Fine(p, x) }

  ghost predicate FineSlots(c: seq<Client>) { forall x <- c | x.Peer() :: AllFine(x.id, x.tx.q) }

  /** Who is authenticated, on which connection. */
  function PeerFds(c: seq<Client>): set<(u64, int)> { set j | 0 <= j < |c| && c[j].Peer() :: (c[j].id, c[j].fd) }

  function Links(l: seq<End>): set<(u64, int)> { set i | 0 <= i < |l| :: (l[i].id, l[i].fd) }

  /** The clients are exactly those of the authenticated connections. */
  ghost predicate Linked(c: seq<Client>, l: seq<End>) { Links(l) == PeerFds(c) }

  ghost predicate FineEnds(l: seq<End>) { forall e <- l :: AllFine(e.id, e.down) }

  ghost predicate WInv(w: World, lfd: int) {
    && FdInv(w.srv, lfd) && PeerInv(w.srv) && DistinctIds(w.ends) && Linked(w.srv.c, w.ends) && FineSlots(w.srv.c)
    && FineEnds(w.ends)
  }

  /** The same as a state of the transfers: all that is on its way is in the bag. */
  ghost predicate Sim(w: World, n: T.Net) {
    && n.peers == Clients(w.ends) && n.running == w.running
    && forall m | T.Core(m) :: Total(w, m) <= Occ(n.flight, m)
  }

  /** The clients alone, for what does not depend on messages in flight. */
  function View(w: World): T.Net { T.Net(Clients(w.ends), [], w.running) }

  // ----- steps -----

  datatype Act =
    | Send(i: nat)
    | Serve(i: nat, e: Event, l: seq<End>, news: seq<End>)
    | Receive(i: nat, env: C.Env)
    | Accept(i: nat, k: T.Key, src: seq<byte>, env: C.Env)
    | Chat(i: nat, c: C.Clt)

  /** The event completes a message of an authenticated client. */
  ghost predicate Takes(s: Srv, e: Event, cfg: Config) {
    e.Input? && e.i < |s.c| && s.c[e.i].Peer() && Completed(s, e, cfg).Some?
  }

  /** The event writes the last byte of a message to an authenticated client. */
  predicate Gives(s: Srv, e: Event) {
    && e.Output? && e.i < |s.c| && s.c[e.i].Peer() && s.c[e.i].tx.q != []
    && s.c[e.i].tx.off + e.n == MSG_HDR_SIZE + |s.c[e.i].tx.q[0].pay|
  }

  /** What an event of the server does to the messages on their way; a message that it completes is the next one
      that the client has sent. */
  ghost predicate Moves(w: World, i: nat, e: Event, l: seq<End>, cfg: Config) {
    if Takes(w.srv, e, cfg) then
      && i < |w.ends| && w.ends[i].id == w.srv.c[e.i].id && w.ends[i].up != []
      && Completed(w.srv, e, cfg).value == w.ends[i].up[0]
      && l == w.ends[i := w.ends[i].(up := w.ends[i].up[1..])]
    else if Gives(w.srv, e) then
      && i < |w.ends| && w.ends[i].id == w.srv.c[e.i].id
      && l == w.ends[i := w.ends[i].(down := w.ends[i].down + [w.srv.c[e.i].tx.q[0]])]
    else l == w.ends
  }

  /** A client sends the head of its queue. */
  ghost predicate JSend(w: World, i: nat, w': World) {
    && i < |w.ends| && w.ends[i].clt.queue != []
    && var e := w.ends[i];
       w' == w.(ends := w.ends[i := e.(clt := C.Dequeue(e.clt), up := e.up + [e.clt.queue[0]])])
  }

  // ----- clients that come and go -----

  predicate Remains(e: End, c: seq<Client>) { (e.id, e.fd) in PeerFds(c) }

  /** The clients whose connection is still authenticated under their id. */
  function Remaining(l: seq<End>, c: seq<Client>): seq<End> {
    if l == [] then []
    else var e := l[|l| - 1]; Remaining(l[..|l| - 1], c) + if Remains(e, c) then [e] else []
  }

  /** One client for each connection that has become authenticated, with nothing on its way yet. */
  ghost predicate Arrivals(news: seq<End>, c: seq<Client>, c': seq<Client>) {
    && Links(news) == PeerFds(c') - PeerFds(c) && DistinctIds(news)
    && forall e <- news :: e.up == [] && e.down == [] && T.Newcomer(e.clt)
  }

  /** The connections of clients that take part in a download stay authenticated. */
  ghost predicate Attended(running: map<T.Key, seq<byte>>, c: seq<Client>, c': seq<Client>) {
    forall k <- running, x <- PeerFds(c) | x.0 == k.q || x.0 == k.p :: x in PeerFds(c')
  }

  /** When a connection becomes authenticated, nothing else is waiting to be written to it. */
  predicate Quiet(s: Srv, e: Event, s': Srv) {
    e.Input? && e.i < |s.c| && e.i < |s'.c| && !s.c[e.i].Peer() && s'.c[e.i].Peer() ==> s.c[e.i].tx == Tx([], 0)
  }

  /** The server does anything that does not interrupt a download. */
  ghost predicate JServe(w: World, i: nat, e: Event, l: seq<End>, news: seq<End>, w': World, lfd: int, cfg: Config) {
    && ServerSpec.Step(w.srv, e, w'.srv, lfd, cfg) && Moves(w, i, e, l, cfg)
    && Attended(w.running, w.srv.c, w'.srv.c) && Quiet(w.srv, e, w'.srv) && Arrivals(news, w.srv.c, w'.srv.c)
    && w'.running == w.running && w'.ends == Remaining(l, w'.srv.c) + news
  }

  /** A client processes the next message. */
  ghost predicate JReceive(w: World, i: nat, env: C.Env, w': World) {
    && i < |w.ends| && w.ends[i].down != [] && env.Ok() && env.HostOk()
    && var e := w.ends[i];
       var m := e.down[0];
       && (m.mtype == OFFER_REQ ==> T.Key(m.dst, m.src, C.NewDownload(m, env).oid) !in w.running)
       && w' == World(w.srv, w.ends[i := e.(clt := C.ProcessSrvMsg(e.clt, m, env), down := e.down[1..])],
                      if T.Finishes(m) then w.running - {T.KeyOf(m)} else w.running)
  }

  /** A user accepts an offer. */
  ghost predicate JAccept(w: World, i: nat, k: T.Key, src: seq<byte>, env: C.Env, w': World) {
    && i < |w.ends| && w.ends[i].id == k.q && T.CanAccept(View(w), k, src) && env.Ok() && env.HostOk()
    && var (c', reply) := C.AcceptOffer(w.ends[i].clt, k.p, k.oid, env);
       w' == w.(ends := w.ends[i := w.ends[i].(clt := C.Queued(c', reply))], running := w.running[k := src])
  }

  /** A client does anything else. */
  ghost predicate JChat(w: World, i: nat, c: C.Clt, w': World) {
    && i < |w.ends| && w.ends[i].id in Clients(w.ends) && T.Chats(View(w), w.ends[i].id, c)
    && w' == w.(ends := w.ends[i := w.ends[i].(clt := c)])
  }

  ghost predicate JStep(w: World, a: Act, w': World, lfd: int, cfg: Config) {
    match a
    case Send(i) => JSend(w, i, w')
    case Serve(i, e, l, news) => JServe(w, i, e, l, news, w', lfd, cfg)
    case Receive(i, env) => JReceive(w, i, env, w')
    case Accept(i, k, src, env) => JAccept(w, i, k, src, env, w')
    case Chat(i, c) => JChat(w, i, c, w')
  }
}
