/** Any number of simultaneous downloads between any number of clients.

    The relay is a bag of messages in flight, delivered in any order; that clients, server and connections are
    such a system is proved in JointRuns.dfy and JointWire.dfy. */
module Transfers {
  import opened Bytes
  import opened Message
  import opened ClientSpec
  import opened TransferFacts

  // ----- messages of one download -----

  /** What travels between two clients in a download. */
  predicate Core(m: Msg) { m.mtype in {GETFILE_REQ, GETFILE_RES} }

  /** What a GETFILE message is about. */
  function OidOf(m: Msg): u64 {
    match AttrAt(Attrs(m), 0, OFFERID) case None => 0 case Some(v) => U64Of(v)
  }

  /** Messages of a type, to `dst`, from `src` or still unstamped, about an offer or of a transaction. */
  datatype Sel = Sel(mtype: u16, src: Option<u64>, dst: u64, oid: Option<u64>, trf: Option<u64>)

  predicate Picks(x: Sel, m: Msg) {
    && m.mtype == x.mtype && m.dst == x.dst
    && (x.src.Some? ==> m.src == x.src.value)
    && (x.oid.Some? ==> OidOf(m) == x.oid.value)
    && (x.trf.Some? ==> m.trf == x.trf.value)
  }

  function Count(l: seq<Msg>, x: Sel): nat {
    if l == [] then 0 else Count(l[..|l| - 1], x) + if Picks(x, l[|l| - 1]) then 1 else 0
  }

  lemma {:induction false} CountConcat(a: seq<Msg>, b: seq<Msg>, x: Sel)
    ensures Count(a + b, x) == Count(a, x) + Count(b, x)
    decreases |b|
  {
    hide Picks;
    if b == [] {
      assert a + b == a;
    } else {
      assert (a + b)[..|a + b| - 1] == a + b[..|b| - 1];
      CountConcat(a, b[..|b| - 1], x);
    }
  }

  function One(m: Msg, x: Sel): nat { if Picks(x, m) then 1 else 0 }

  lemma CountOne(m: Msg, x: Sel)
    ensures Count([m], x) == One(m, x)
  {
    hide Picks;
    assert [m][..0] == [];
  }

  lemma CountAppend(l: seq<Msg>, m: Msg, x: Sel)
    ensures Count(l + [m], x) == Count(l, x) + One(m, x)
  {
    hide One, Picks;
    CountConcat(l, [m], x);
    CountOne(m, x);
  }

  function Without(l: seq<Msg>, n: nat): seq<Msg>
    requires n < |l|
  {
    l[..n] + l[n + 1..]
  }

  lemma CountWithout(l: seq<Msg>, n: nat, x: Sel)
    requires n < |l|
    ensures Count(l, x) == Count(Without(l, n), x) + One(l[n], x)
  {
    hide One, Picks;
    CountConcat(l[..n], l[n + 1..], x);
    CountConcat(l[..n] + [l[n]], l[n + 1..], x);
    CountAppend(l[..n], l[n], x);
    assert l == l[..n] + [l[n]] + l[n + 1..];
  }

  lemma CountTail(l: seq<Msg>, x: Sel)
    requires l != []
    ensures Count(l, x) == Count(l[1..], x) + One(l[0], x)
  {
    hide One, Picks;
    CountWithout(l, 0, x);
    assert Without(l, 0) == l[1..];
  }

  lemma {:induction false} CountZero(l: seq<Msg>, x: Sel)
    requires Count(l, x) == 0
    ensures forall m <- l :: !Picks(x, m)
  {
    hide Picks;
    if l != [] {
      CountZero(l[..|l| - 1], x);
      assert l == l[..|l| - 1] + [l[|l| - 1]];
    }
  }

  // ----- the system -----

  /** A download: client `q` fetches from client `p` the offer `oid`. */
  datatype Key = Key(q: u64, p: u64, oid: u64)

  /** All clients by id, the messages in flight, and the content each running download is to fetch. */
  datatype Net = Net(peers: map<u64, Clt>, flight: seq<Msg>, running: map<Key, Content>)

  function ReqQ(k: Key): Sel { Sel(GETFILE_REQ, None, k.p, Some(k.oid), None) }
  function ReqF(k: Key): Sel { Sel(GETFILE_REQ, Some(k.q), k.p, Some(k.oid), None) }
  function ResQ(k: Key): Sel { Sel(GETFILE_RES, None, k.q, Some(k.oid), None) }
  function ResF(k: Key): Sel { Sel(GETFILE_RES, Some(k.p), k.q, Some(k.oid), None) }

  /** How many requests and responses of a download are outstanding, queued or in flight. */
  function Outstanding(s: Net, k: Key): nat
    requires k.q in s.peers && k.p in s.peers
  {
    Count(s.peers[k.q].queue, ReqQ(k)) + Count(s.flight, ReqF(k)) +
    Count(s.peers[k.p].queue, ResQ(k)) + Count(s.flight, ResF(k))
  }

  /** Responses of transaction `t` that `p` owes `q`, and the requests of `q` still pending for them. */
  function Owed(s: Net, q: u64, p: u64, t: u64): nat
    requires q in s.peers && p in s.peers
  {
    Count(s.flight, Sel(GETFILE_REQ, Some(q), p, None, Some(t))) +
    Count(s.peers[p].queue, Sel(GETFILE_RES, None, q, None, Some(t))) +
    Count(s.flight, Sel(GETFILE_RES, Some(p), q, None, Some(t)))
  }

  function Pending(c: Clt, p: u64, t: u64): nat {
    Count(c.pending, Sel(GETFILE_REQ, None, p, None, Some(t)))
  }

  /** A request asks for what the download lacks; for nothing exactly when nothing is lacking. */
  ghost predicate GoodReq(m: Msg, oid: u64, offset: nat, src: Content) {
    exists size: u64 ::
      && offset <= MAX_OFF && size <= MAX_DATA_SIZE && (size == 0 <==> offset == |src|)
      && Attrs(m) == [Attr(OFFERID, Be(oid, 8)), Attr(OFFSET, Be(offset, 8)), Attr(SIZE, Be(size, 8))]
  }

  /** A response carries the next piece, or nothing when the file is complete. */
  ghost predicate GoodRes(m: Msg, oid: u64, offset: nat, src: Content) {
    exists data: Content ::
      && (if data == [] then offset == |src| else Piece(src, offset, MAX_DATA_SIZE, data))
      && Attrs(m) == [Attr(OFFERID, Be(oid, 8)), Attr(DATA, data)]
  }

  /** The offer still stands as long as a request may reach it. */
  ghost predicate RunningOk(s: Net, k: Key, src: Content)
    requires k.q in s.peers && k.p in s.peers
  {
    && s.peers[k.q].st.AuthOk? && s.peers[k.p].st.AuthOk? && |src| <= MAX_OFF
    && Downloads(s.peers[k.q], k.p, k.oid, src)
    && var offset := Entry(s.peers[k.q], k.p, k.oid).offset;
       && (forall m <- s.peers[k.q].queue | Picks(ReqQ(k), m) :: GoodReq(m, k.oid, offset, src))
       && (forall m <- s.flight | Picks(ReqF(k), m) :: GoodReq(m, k.oid, offset, src))
       && (forall m <- s.peers[k.p].queue | Picks(ResQ(k), m) :: GoodRes(m, k.oid, offset, src))
       && (forall m <- s.flight | Picks(ResF(k), m) :: GoodRes(m, k.oid, offset, src))
       && (Count(s.peers[k.q].queue, ReqQ(k)) + Count(s.flight, ReqF(k)) > 0 || offset < |src|
           ==> Offers(s.peers[k.p], k.q, k.oid, src))
  }

  /** The final and the part file name of a download. */
  function FileNames(s: Net, k: Key): set<seq<byte>> {
    if k.q in s.peers then DownloadNames(s.peers[k.q], k.p, k.oid) else {}
  }

  function OfferNames(s: Net, k: Key): set<seq<byte>> {
    if k.p in s.peers then OfferedNames(s.peers[k.p], k.q, k.oid) else {}
  }

  /** Downloads of one client use different files, and none writes a file that is being fetched from it. */
  ghost predicate Apart(s: Net, k: Key, k': Key) {
    && (k != k' && k.q == k'.q ==> FileNames(s, k) !! FileNames(s, k'))
    && (k.q == k'.p ==> FileNames(s, k) !! OfferNames(s, k'))
  }

  ghost predicate CountsOk(s: Net) {
    forall k: Key | k.q in s.peers && k.p in s.peers :: Outstanding(s, k) == if k in s.running then 1 else 0
  }

  ghost predicate OwedOk(s: Net) {
    forall q, p, t | q in s.peers && p in s.peers :: Owed(s, q, p, t) <= Pending(s.peers[q], p, t)
  }

  ghost predicate AllRunningOk(s: Net) {
    forall k <- s.running :: k.q in s.peers && k.p in s.peers && RunningOk(s, k, s.running[k])
  }

  ghost predicate AllApart(s: Net) {
    forall k <- s.running, k' <- s.running :: Apart(s, k, k')
  }

  ghost predicate Tidy(s: Net) {
    && (forall q <- s.peers, m <- s.peers[q].pending :: IsReq(m.mtype))
    && Closed(s)
    && (forall q <- s.peers :: !s.peers[q].dead)
  }

  /** The messages of downloads are between clients that are there. */
  ghost predicate Closed(s: Net) {
    && (forall m <- s.flight | Core(m) :: m.src in s.peers && m.dst in s.peers)
    && forall q <- s.peers, m <- s.peers[q].queue | Core(m) :: m.dst in s.peers
  }

  ghost predicate Inv(s: Net) {
    CountsOk(s) && OwedOk(s) && AllRunningOk(s) && AllApart(s) && Tidy(s)
  }

  // ----- steps -----

  datatype Act =
    | Transmit(p: u64)
    | Deliver(n: nat, env: Env)
    | Accept(k: Key, src: Content, env: Env)
    | Chat(q: u64, c: Clt)
    | Turnover(peers: map<u64, Clt>)

  /** The head of a send queue goes out; the server stamps it with the sender's id. */
  function Transmitted(s: Net, p: u64): Net
    requires p in s.peers && s.peers[p].queue != []
  {
    s.(peers := s.peers[p := Dequeue(s.peers[p])], flight := s.flight + [s.peers[p].queue[0].(src := p)])
  }

  /** The download a GETFILE message belongs to. */
  function KeyOf(m: Msg): Key {
    if m.mtype == GETFILE_REQ then Key(m.src, m.dst, OidOf(m)) else Key(m.dst, m.src, OidOf(m))
  }

  predicate Finishes(m: Msg) { m.mtype == GETFILE_RES && AttrAt(Attrs(m), 1, DATA) == Some([]) }

  function Delivered(s: Net, n: nat, env: Env): Net
    requires n < |s.flight| && s.flight[n].dst in s.peers
  {
    var m := s.flight[n];
    Net(s.peers[m.dst := ProcessSrvMsg(s.peers[m.dst], m, env)], Without(s.flight, n),
        if Finishes(m) then s.running - {KeyOf(m)} else s.running)
  }

  /** An entry that can be accepted: not started, and its part file absent or shorter than the file and
      beginning like it. */
  ghost predicate Acceptable(c: Clt, k: Key, src: Content)
    requires FindTransfer(c.transfers, Download, k.p, k.oid) < |c.transfers|
  {
    var d := Entry(c, k.p, k.oid);
    && d.size == |src| && d.offset == 0 && d.pos == None && d.name.Some? && d.part == Some(d.name.value + PART)
    && (d.part.value in c.files ==> c.files[d.part.value] < src)
    && (d.part.value !in c.files ==> src != [])
  }

  /** What the user's side must provide when accepting: an offer that stands, an acceptable entry, and file
      names of its own. */
  ghost predicate CanAccept(s: Net, k: Key, src: Content) {
    && k !in s.running && k.q in s.peers && k.p in s.peers
    && s.peers[k.q].st.AuthOk? && s.peers[k.p].st.AuthOk? && |src| <= MAX_OFF
    && Offers(s.peers[k.p], k.q, k.oid, src)
    && FindTransfer(s.peers[k.q].transfers, Download, k.p, k.oid) < |s.peers[k.q].transfers|
    && Acceptable(s.peers[k.q], k, src)
    && Apart(s, k, k)
    && forall k' <- s.running :: Apart(s, k, k') && Apart(s, k', k)
  }

  function Accepted(s: Net, k: Key, src: Content, env: Env): Net
    requires k.q in s.peers
  {
    var (c', reply) := AcceptOffer(s.peers[k.q], k.p, k.oid, env);
    s.(peers := s.peers[k.q := Queued(c', reply)], running := s.running[k := src])
  }

  /** The entry of a key stays, apart from its time of last activity. */
  predicate SameEntry(c: Clt, c': Clt, kind: Kind, rid: u64, oid: u64) {
    var i, j := FindTransfer(c.transfers, kind, rid, oid), FindTransfer(c'.transfers, kind, rid, oid);
    && (i == |c.transfers| <==> j == |c'.transfers|)
    && (i < |c.transfers| ==> c'.transfers[j] == c.transfers[i].(tact := c'.transfers[j].tact))
  }

  /** A client that takes part in a running download. */
  ghost predicate Involved(s: Net, q: u64) { exists k <- s.running :: k.q == q || k.p == q }

  /** Anything else a client does: other messages and commands, other files announced, accepted entries of
      the past cleared away, and so on; logging in or out and changing files while it takes part in no
      download. */
  ghost predicate Chats(s: Net, q: u64, c': Clt)
    requires q in s.peers
  {
    var c := s.peers[q];
    && c'.dead == c.dead && (Involved(s, q) ==> c'.st == c.st && c'.files == c.files)
    && (c'.queue == c.queue || exists m :: c'.queue == c.queue + [m] && !Core(m))
    && (forall p, t :: Pending(c', p, t) == Pending(c, p, t)) && (forall m <- c'.pending :: IsReq(m.mtype))
    && forall k <- s.running ::
         && (k.q == q ==> SameEntry(c, c', Download, k.p, k.oid))
         && (k.p == q ==>
               && SameEntry(c, c', Offer, k.q, k.oid)
               && OfferedNames(c', k.q, k.oid) <= OfferedNames(c, k.q, k.oid))
  }

  /** A client that has nothing to send about files yet, in whatever state of its login. */
  ghost predicate Newcomer(c: Clt) {
    !c.dead && (forall m <- c.queue :: !Core(m)) && (forall m <- c.pending :: IsReq(m.mtype))
  }

  /** Clients come and go, and come back, but those that take part in a download stay. */
  ghost predicate Turns(s: Net, peers: map<u64, Clt>) {
    && (forall q <- peers :: (q in s.peers && peers[q] == s.peers[q]) || Newcomer(peers[q]))
    && forall q <- s.peers | Involved(s, q) :: q in peers && peers[q] == s.peers[q]
  }

  /** Answers to LOGIN, AUTH and LOGOUT come from the server alone; the id of an offer is not in use between
      the two clients. */
  ghost predicate Honest(s: Net, m: Msg, env: Env) {
    && m.mtype !in {LOGIN_RES, AUTH_RES, AUTH_ERR, LOGOUT_RES}
    && (m.mtype == OFFER_REQ ==> Key(m.dst, m.src, NewDownload(m, env).oid) !in s.running)
  }

  ghost predicate Step(s: Net, a: Act, s': Net) {
    match a
    case Transmit(p) => p in s.peers && s.peers[p].queue != [] && s' == Transmitted(s, p)
    case Deliver(n, env) =>
      && n < |s.flight| && s.flight[n].dst in s.peers && Honest(s, s.flight[n], env)
      && env.Ok() && env.HostOk() && s' == Delivered(s, n, env)
    case Accept(k, src, env) => CanAccept(s, k, src) && env.Ok() && env.HostOk() && s' == Accepted(s, k, src, env)
    case Chat(q, c) => q in s.peers && Chats(s, q, c) && s' == s.(peers := s.peers[q := c])
    case Turnover(peers) => Turns(s, peers) && s' == s.(peers := peers)
  }
}
