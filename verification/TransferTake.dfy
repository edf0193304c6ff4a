/** A piece, or the closing empty response, reaches the downloading client. */
module TransferTake {
  import opened Bytes
  import opened Message
  import opened ClientSpec
  import opened TransferFacts
  import opened Transfers
  import opened TransferFrame
  import opened TransferServe

  // ----- one download's entry, files and request change -----

  ghost predicate SameElsewhere(files: Files, files': Files, names: set<seq<byte>>) {
    forall f | f !in names :: (f in files' <==> f in files) && (f in files ==> files'[f] == files[f])
  }

  /** Only the entry of one download and its files change, and at most a request for it is sent. */
  ghost predicate Touched(c: Clt, c': Clt, rid: u64, oid: u64, t: Transfer) {
    var i := FindTransfer(c.transfers, Download, rid, oid);
    && i < |c.transfers| && c'.st == c.st && c'.dead == c.dead && c'.transfers == c.transfers[i := t]
    && (t.tact <= 0
        || (Matches(t, Download, rid, oid) && t.name == c.transfers[i].name && t.part == c.transfers[i].part))
    && SameElsewhere(c.files, c'.files, DownloadNames(c, rid, oid))
    && (c'.queue == c.queue
        || exists r :: c'.queue == c.queue + [r] && r.mtype == GETFILE_REQ && r.dst == rid && OidOf(r) == oid)
  }

  lemma TouchedDownload(c: Clt, c': Clt, rid: u64, oid: u64, t: Transfer, rid': u64, oid': u64)
    requires Touched(c, c', rid, oid, t) && (rid', oid') != (rid, oid)
    ensures DownloadNames(c', rid', oid') == DownloadNames(c, rid', oid')
    ensures forall src :: Downloads(c, rid', oid', src) && DownloadNames(c, rid, oid) !! DownloadNames(c, rid', oid')
                          ==> Downloads(c', rid', oid', src) && Entry(c', rid', oid') == Entry(c, rid', oid')
  {
    hide FindTransfer, Matches, OidOf;
    EntryChanged(c.transfers, Download, rid, oid, t, Download, rid', oid');
  }

  lemma TouchedOffer(c: Clt, c': Clt, rid: u64, oid: u64, t: Transfer, rid': u64, oid': u64)
    requires Touched(c, c', rid, oid, t)
    ensures OfferedNames(c', rid', oid') <= OfferedNames(c, rid', oid')
    ensures forall src :: Offers(c, rid', oid', src) && DownloadNames(c, rid, oid) !! OfferedNames(c, rid', oid')
                          ==> Offers(c', rid', oid', src)
  {
    hide FindTransfer, OidOf, DownloadNames;
    var l := c.transfers;
    var i := FindTransfer(l, Download, rid, oid);
    EntryChanged(l, Download, rid, oid, t, Offer, rid', oid');
    assert forall x <- l[i := t] :: x == t || x in l;
    var k := FindTransfer(l, Offer, rid', oid');
    assert k < |l| ==> l[k] in l;
  }

  lemma TouchedQueue(c: Clt, c': Clt, key: Key, t: Transfer, k: Key)
    requires Touched(c, c', key.p, key.oid, t) && k != key
    ensures forall m <- c'.queue | Picks(ResQ(k), m) :: m in c.queue
    ensures k.q == key.q ==> forall m <- c'.queue | Picks(ReqQ(k), m) :: m in c.queue
    ensures k.q == key.q ==> Count(c'.queue, ReqQ(k)) == Count(c.queue, ReqQ(k))
  {
    hide FindTransfer, OidOf, Matches, DownloadNames, Count;
    if c'.queue != c.queue {
      var r :| c'.queue == c.queue + [r] && r.mtype == GETFILE_REQ && r.dst == key.p && OidOf(r) == key.oid;
      CountAppend(c.queue, r, ReqQ(k));
    }
  }

  /** Nothing is added to the messages in flight. */
  ghost predicate FlightShrinks(s: Net, s': Net) {
    (forall m <- s'.flight :: m in s.flight) && forall x :: Count(s'.flight, x) <= Count(s.flight, x)
  }

  /** Other downloads do not notice. */
  lemma TouchedOthers(s: Net, s': Net, key: Key, t: Transfer, k: Key)
    requires k != key && key.q in s.peers && k.q in s.peers && k.p in s.peers && k in s.running
    requires RunningOk(s, k, s.running[k])
    requires s'.peers.Keys == s.peers.Keys && s'.peers == s.peers[key.q := s'.peers[key.q]] && FlightShrinks(s, s')
    requires Touched(s.peers[key.q], s'.peers[key.q], key.p, key.oid, t)
    requires Apart(s, key, k)
    ensures RunningOk(s', k, s.running[k])
    ensures FileNames(s', k) == FileNames(s, k) && OfferNames(s', k) <= OfferNames(s, k)
  {
    hide Touched, GoodReq, GoodRes, Downloads, DownloadNames, Offers, OfferedNames, FindTransfer, Count;
    var c, c' := s.peers[key.q], s'.peers[key.q];
    TouchedState(c, c', key, t);
    TouchedQueue(c, c', key, t, k);
    if k.q == key.q { TouchedDownload(c, c', key.p, key.oid, t, k.p, k.oid); }
    if k.p == key.q { TouchedOffer(c, c', key.p, key.oid, t, k.q, k.oid); }
    var src := s.running[k];
    assert Downloads(s.peers[k.q], k.p, k.oid, src);
    RunningCarries(s, s', k, src);
  }

  lemma TouchedState(c: Clt, c': Clt, key: Key, t: Transfer)
    requires Touched(c, c', key.p, key.oid, t)
    ensures c'.st == c.st && c'.dead == c.dead
    ensures t.tact > 0 ==> DownloadNames(c', key.p, key.oid) == DownloadNames(c, key.p, key.oid)
  {
    if t.tact > 0 {
      FindSame(c.transfers, FindTransfer(c.transfers, Download, key.p, key.oid), t, Download, key.p, key.oid);
    }
    hide FindTransfer, OidOf;
  }

  // ----- a response arrives -----

  /** A GETFILE response in flight belongs to a running download and is all that is outstanding of it. */
  lemma ResponseInFlight(s: Net, n: nat)
    requires Inv(s) && n < |s.flight| && s.flight[n].mtype == GETFILE_RES && s.flight[n].dst in s.peers
    ensures var m := s.flight[n];
            var k := KeyOf(m);
            && k in s.running && k.q in s.peers && k.p in s.peers && RunningOk(s, k, s.running[k])
            && Picks(ResF(k), m) && Count(s.peers[k.q].queue, ReqQ(k)) == 0 && Count(s.flight, ReqF(k)) == 0
            && Count(s.peers[k.p].queue, ResQ(k)) == 0 && Count(s.flight, ResF(k)) == 1
            && GoodRes(m, k.oid, Entry(s.peers[k.q], k.p, k.oid).offset, s.running[k])
  {
    hide Count, OidOf, Offers, Downloads, GoodReq, GoodRes, OwedOk, AllApart, FindTransfer;
    var m := s.flight[n];
    var k := KeyOf(m);
    assert m in s.flight;
    CountWithout(s.flight, n, ResF(k));
    assert Outstanding(s, k) >= 1;
  }

  lemma {:induction false} SomePicked(l: seq<Msg>, x: Sel) returns (j: nat)
    requires Count(l, x) > 0
    ensures j < |l| && Picks(x, l[j])
  {
    hide Picks;
    if Picks(x, l[|l| - 1]) { j := |l| - 1; } else { j := SomePicked(l[..|l| - 1], x); }
  }

  /** It answers a pending GETFILE request, which alone leaves the list of pending requests. */
  lemma ResponsePending(s: Net, n: nat)
    requires OwedOk(s) && Tidy(s) && n < |s.flight| && s.flight[n].mtype == GETFILE_RES && s.flight[n].dst in s.peers
    ensures var m := s.flight[n];
            var l := s.peers[m.dst].pending;
            var j := FindPending(l, m);
            && j < |l| && l[j].mtype == GETFILE_REQ && l[j].dst == m.src && l[j].trf == m.trf
  {
    hide Count, OidOf, FindPending;
    var m := s.flight[n];
    assert m in s.flight;
    var l := s.peers[m.dst].pending;
    CountWithout(s.flight, n, Sel(GETFILE_RES, Some(m.src), m.dst, None, Some(m.trf)));
    assert Owed(s, m.dst, m.src, m.trf) >= 1;
    var i := SomePicked(l, Sel(GETFILE_REQ, None, m.src, None, Some(m.trf)));
    assert Answered(l[i], m);
    var j := FindPending(l, m);
    assert l[j] in l;
    RequestOfResponse(l[j].mtype);
  }

  lemma RequestOfResponse(t: u16)
    requires IsReq(t) && ToRes(t) == GETFILE_RES
    ensures t == GETFILE_REQ
  {}

  /** The state after the response has been taken: `t` is the download's entry, `o` the next request. */
  ghost predicate AfterResponse(s: Net, n: nat, s': Net, t: Transfer, o: Option<Msg>) {
    && n < |s.flight| && s.flight[n].dst in s.peers && s.flight[n].mtype == GETFILE_RES
    && var m := s.flight[n];
       var c := s.peers[m.dst];
       var j := FindPending(c.pending, m);
       && j < |c.pending| && c.pending[j].mtype == GETFILE_REQ && c.pending[j].dst == m.src && c.pending[j].trf == m.trf
       && m.dst in s'.peers && s'.peers == s.peers[m.dst := s'.peers[m.dst]]
       && s'.flight == Without(s.flight, n) && Touched(c, s'.peers[m.dst], m.src, OidOf(m), t)
       && s'.peers[m.dst].pending == Without(c.pending, j)
       && match o
          case None => t.tact <= 0 && s'.running == s.running - {KeyOf(m)} && s'.peers[m.dst].queue == c.queue
          case Some(r) =>
            && t.tact > 0 && s'.running == s.running && s'.peers[m.dst].queue == c.queue + [r]
            && r.mtype == GETFILE_REQ && r.dst == m.src && OidOf(r) == OidOf(m)
  }

  /** What concerns every download: membership and messages. */
  lemma ResponseStates(s: Net, n: nat, s': Net, t: Transfer, o: Option<Msg>)
    requires AfterResponse(s, n, s', t, o)
    ensures n < |s.flight| && s'.peers.Keys == s.peers.Keys && FlightShrinks(s, s')
    ensures s'.running == if o.Some? then s.running else s.running - {KeyOf(s.flight[n])}
    ensures forall x <- s.peers :: s'.peers[x].st == s.peers[x].st
  {
    hide FindTransfer, OidOf, Matches, FindPending, DownloadNames, Count;
    forall x
      ensures Count(s'.flight, x) <= Count(s.flight, x)
    {
      CountWithout(s.flight, n, x);
    }
  }

  lemma ResponseCounts(s: Net, n: nat, s': Net, t: Transfer, o: Option<Msg>, k: Key)
    requires AfterResponse(s, n, s', t, o) && k.q in s.peers && k.p in s.peers
    ensures Outstanding(s', k) == Outstanding(s, k) - if o.None? && k == KeyOf(s.flight[n]) then 1 else 0
  {
    hide Count, OidOf, FindTransfer, FindPending, Touched;
    var m := s.flight[n];
    var x := m.dst;
    CountWithout(s.flight, n, ReqF(k));
    CountWithout(s.flight, n, ResF(k));
    if o.Some? {
      CountAppend(s.peers[x].queue, o.value, ReqQ(k));
      CountAppend(s.peers[x].queue, o.value, ResQ(k));
    }
  }

  lemma ResponseOwed(s: Net, n: nat, s': Net, t: Transfer, o: Option<Msg>, q: u64, p: u64, trf: u64)
    requires AfterResponse(s, n, s', t, o) && q in s.peers && p in s.peers
    requires Owed(s, q, p, trf) <= Pending(s.peers[q], p, trf)
    ensures Owed(s', q, p, trf) <= Pending(s'.peers[q], p, trf)
  {
    hide Count, OidOf, FindTransfer, FindPending, Touched;
    var m := s.flight[n];
    CountWithout(s.flight, n, Sel(GETFILE_REQ, Some(q), p, None, Some(trf)));
    CountWithout(s.flight, n, Sel(GETFILE_RES, Some(p), q, None, Some(trf)));
    var c := s.peers[m.dst];
    if o.Some? {
      CountAppend(c.queue, o.value, Sel(GETFILE_RES, None, q, None, Some(trf)));
    }
    CountWithout(c.pending, FindPending(c.pending, m), Sel(GETFILE_REQ, None, p, None, Some(trf)));
  }

  lemma ResponseTidy(s: Net, n: nat, s': Net, t: Transfer, o: Option<Msg>)
    requires Tidy(s) && AfterResponse(s, n, s', t, o)
    ensures Tidy(s')
  {
    ResponseClosed(s, n, s', t, o);
    hide FindTransfer, OidOf, Matches, FindPending, Touched, Closed;
    TouchedState(s.peers[s.flight[n].dst], s'.peers[s.flight[n].dst], KeyOf(s.flight[n]), t);
  }

  lemma ResponseClosed(s: Net, n: nat, s': Net, t: Transfer, o: Option<Msg>)
    requires Closed(s) && AfterResponse(s, n, s', t, o)
    ensures Closed(s')
  {
    hide FindTransfer, OidOf, Matches, FindPending, Touched;
    assert s.flight[n] in s.flight;
  }

  // ----- what the download makes of it -----

  lemma DataOf(m: Msg, oid: u64, offset: nat, src: Content) returns (data: Content)
    requires GoodRes(m, oid, offset, src)
    ensures if data == [] then offset == |src| else Piece(src, offset, MAX_DATA_SIZE, data)
    ensures Attrs(m) == [Attr(OFFERID, Be(oid, 8)), Attr(DATA, data)]
  {
    hide Attrs, Be, Piece;
    data :| (if data == [] then offset == |src| else Piece(src, offset, MAX_DATA_SIZE, data))
            && Attrs(m) == [Attr(OFFERID, Be(oid, 8)), Attr(DATA, data)];
  }

  /** What a downloading client does with a good response: it writes the piece at the end of the part file
      and asks for the next; or, when nothing is lacking, it gives the complete file its final name. */
  ghost predicate TookOf(c: Clt, m: Msg, env: Env, oid: u64, src: Content, t: Transfer, o: Option<Msg>) {
    var j := FindPending(c.pending, m);
    && j < |c.pending| && FindTransfer(c.transfers, Download, m.src, oid) < |c.transfers| && (Finishes(m) <==> o.None?)
    && var c' := ProcessSrvMsg(c, m, env);
       var d := Entry(c, m.src, oid);
       && c'.pending == Without(c.pending, j) && Touched(c, c', m.src, oid, t) && d.name.Some?
       && match o
          case None =>
            && t.tact <= 0 && c'.queue == c.queue && d.offset == |src|
            && d.name.value in c'.files && c'.files[d.name.value] == src
          case Some(r) =>
            && t.tact > 0 && c'.queue == c.queue + [r] && r.mtype == GETFILE_REQ && r.dst == m.src && OidOf(r) == oid
            && Downloads(c', m.src, oid, src) && d.offset < Entry(c', m.src, oid).offset
            && GoodReq(r, oid, Entry(c', m.src, oid).offset, src)
  }

  lemma GoodGetFile(dst: u64, env: Env, oid: u64, offset: u64, src: Content)
    requires offset <= |src| <= MAX_OFF
    ensures var r := GetFile(dst, env.rnd, env.ts, oid, offset, Chunk(|src| - offset));
            r.mtype == GETFILE_REQ && r.dst == dst && OidOf(r) == oid && GoodReq(r, oid, offset, src)
  {
    hide EncAttr, Tlv;
    GetFileAttrs(dst, env.rnd, env.ts, oid, offset, Chunk(|src| - offset));
    U64OfBe(oid);
    hide U64Of, Be;
    var r := GetFile(dst, env.rnd, env.ts, oid, offset, Chunk(|src| - offset));
    assert GoodReqWith(r, oid, offset, src, Chunk(|src| - offset));
    hide GetFile;
  }

  lemma TakesPiece(c: Clt, m: Msg, env: Env, oid: u64, src: Content, data: Content)
    requires c.st.AuthOk? && env.Ok() && env.HostOk() && m.mtype == GETFILE_RES
    requires Attrs(m) == [Attr(OFFERID, Be(oid, 8)), Attr(DATA, data)]
    requires Downloads(c, m.src, oid, src) && |src| <= MAX_OFF
    requires Piece(src, Entry(c, m.src, oid).offset, MAX_DATA_SIZE, data)
    ensures var (c', reply) := OnFileData(c, m, env);
            var t := c'.transfers[FindTransfer(c.transfers, Download, m.src, oid)];
            && reply.Some? && t.tact > 0 && Touched(c, c', m.src, oid, t) && c'.queue == c.queue
            && c'.pending == c.pending
            && reply.value.mtype == GETFILE_REQ && reply.value.dst == m.src && OidOf(reply.value) == oid
            && Downloads(c', m.src, oid, src) && Entry(c, m.src, oid).offset < Entry(c', m.src, oid).offset
            && GoodReq(reply.value, oid, Entry(c', m.src, oid).offset, src)
  {
    hide FindTransfer, OnFileData, GetFile, Chunk, OidOf, GoodReq, Attrs, Be;
    TakePiece(c, m, env, oid, src, data);
    var d := Entry(c, m.src, oid);
    GoodGetFile(m.src, env, oid, d.offset + |data|, src);
    var k := FindTransfer(c.transfers, Download, m.src, oid);
    FindSame(c.transfers, k, OnFileData(c, m, env).0.transfers[k], Download, m.src, oid);
  }

  lemma TakesEnd(c: Clt, m: Msg, env: Env, oid: u64, src: Content)
    requires c.st.AuthOk? && m.mtype == GETFILE_RES
    requires Attrs(m) == [Attr(OFFERID, Be(oid, 8)), Attr(DATA, [])]
    requires Downloads(c, m.src, oid, src) && Entry(c, m.src, oid).offset == |src|
    ensures var (c', reply) := OnFileData(c, m, env);
            var d := Entry(c, m.src, oid);
            var t := c'.transfers[FindTransfer(c.transfers, Download, m.src, oid)];
            && reply == None && t.tact <= 0 && Touched(c, c', m.src, oid, t) && c'.queue == c.queue
            && c'.pending == c.pending
            && d.name.Some? && d.name.value in c'.files && c'.files[d.name.value] == src
  {
    hide FindTransfer, OnFileData, OidOf, Attrs, Be, Matches;
    TakeEnd(c, m, env, oid, src);
  }

  lemma Took(c: Clt, m: Msg, env: Env, oid: u64, src: Content) returns (t: Transfer, o: Option<Msg>)
    requires c.st.AuthOk? && env.Ok() && env.HostOk() && m.mtype == GETFILE_RES
    requires FindPending(c.pending, m) < |c.pending|
    requires Downloads(c, m.src, oid, src) && |src| <= MAX_OFF && GoodRes(m, oid, Entry(c, m.src, oid).offset, src)
    ensures TookOf(c, m, env, oid, src, t, o)
  {
    hide FindTransfer, OnFileData, OidOf, Attrs, Be, Matches, FindPending, GoodReq, GoodRes;
    var c1 := c.(pending := Without(c.pending, FindPending(c.pending, m)));
    var d := Entry(c, m.src, oid);
    assert Downloads(c1, m.src, oid, src) && Entry(c1, m.src, oid) == d;
    var data := DataOf(m, oid, d.offset, src);
    if data == [] { TakesEnd(c1, m, env, oid, src); } else { TakesPiece(c1, m, env, oid, src, data); }
    hide Downloads, Piece;
    assert Receive(c, m, env) == OnFileData(c1, m, env);
    var (c', reply) := OnFileData(c1, m, env);
    t, o := c'.transfers[FindTransfer(c.transfers, Download, m.src, oid)], reply;
    assert DownloadNames(c1, m.src, oid) == DownloadNames(c, m.src, oid);
    hide DownloadNames;
    TouchedWhole(c, c1, c', m.src, oid, t, reply);
    EndsOnEmpty(m, oid, data);
  }

  lemma EndsOnEmpty(m: Msg, oid: u64, data: Content)
    requires m.mtype == GETFILE_RES && Attrs(m) == [Attr(OFFERID, Be(oid, 8)), Attr(DATA, data)]
    ensures Finishes(m) <==> data == []
  {}

  /** The pending list and the reply do not matter to what is touched. */
  lemma TouchedWhole(c: Clt, c1: Clt, c': Clt, rid: u64, oid: u64, t: Transfer, reply: Option<Msg>)
    requires c1 == c.(pending := c1.pending) && Touched(c1, c', rid, oid, t) && c'.queue == c.queue
    requires DownloadNames(c1, rid, oid) == DownloadNames(c, rid, oid)
    requires reply.Some? ==> reply.value.mtype == GETFILE_REQ && reply.value.dst == rid && OidOf(reply.value) == oid
    ensures Touched(c, Queued(c', reply), rid, oid, t)
  {
    hide FindTransfer, OidOf, Matches, DownloadNames, SameElsewhere;
  }

  /** A response in flight and its effect on the whole system. */
  ghost predicate GoodTaking(s: Net, n: nat, s': Net, o: Option<Msg>) {
    && n < |s.flight|
    && var k := KeyOf(s.flight[n]);
       && k in s.running && k.q in s.peers && k.p in s.peers && RunningOk(s, k, s.running[k]) && k.q in s'.peers
       && var d := Entry(s.peers[k.q], k.p, k.oid);
          var c' := s'.peers[k.q];
          match o
          case None =>
            && d.offset == |s.running[k]| && d.name.Some?
            && d.name.value in c'.files && c'.files[d.name.value] == s.running[k]
          case Some(r) =>
            && Downloads(c', k.p, k.oid, s.running[k]) && d.offset < Entry(c', k.p, k.oid).offset
            && GoodReq(r, k.oid, Entry(c', k.p, k.oid).offset, s.running[k])
  }

  lemma Taken(s: Net, n: nat, env: Env) returns (t: Transfer, o: Option<Msg>)
    requires Inv(s) && n < |s.flight| && s.flight[n].mtype == GETFILE_RES && s.flight[n].dst in s.peers
    requires env.Ok() && env.HostOk()
    ensures AfterResponse(s, n, Delivered(s, n, env), t, o) && GoodTaking(s, n, Delivered(s, n, env), o)
  {
    ResponseInFlight(s, n);
    ResponsePending(s, n);
    hide Inv, RunningOk, FindTransfer, FindPending, OidOf, GoodReq, GoodRes, Count, Picks, ProcessSrvMsg;
    var m := s.flight[n];
    var k := KeyOf(m);
    SenderReady(s, k);
    hide Downloads, KeyOf, GoodTaking, AfterResponse, Delivered;
    t, o := Took(s.peers[m.dst], m, env, k.oid, s.running[k]);
    TakenWhole(s, n, env, t, o);
  }

  lemma TakenWhole(s: Net, n: nat, env: Env, t: Transfer, o: Option<Msg>)
    requires n < |s.flight| && s.flight[n].mtype == GETFILE_RES && s.flight[n].dst in s.peers
    requires var k := KeyOf(s.flight[n]);
             && k in s.running && k.q in s.peers && k.p in s.peers && RunningOk(s, k, s.running[k])
             && TookOf(s.peers[k.q], s.flight[n], env, k.oid, s.running[k], t, o)
    requires var m := s.flight[n];
             var l := s.peers[m.dst].pending;
             var j := FindPending(l, m);
             && j < |l| && l[j].mtype == GETFILE_REQ && l[j].dst == m.src && l[j].trf == m.trf
    ensures AfterResponse(s, n, Delivered(s, n, env), t, o) && GoodTaking(s, n, Delivered(s, n, env), o)
  {
    hide RunningOk, FindTransfer, FindPending, OidOf, GoodReq, GoodRes, ProcessSrvMsg, Finishes, Touched, Downloads;
  }

  // ----- what it keeps -----

  ghost predicate SoleRequest(s: Net, k: Key, r: Msg)
    requires k.q in s.peers && k.p in s.peers
  {
    && (forall m <- s.peers[k.q].queue | Picks(ReqQ(k), m) :: m == r) && (forall m <- s.flight :: !Picks(ReqF(k), m))
    && (forall m <- s.peers[k.p].queue :: !Picks(ResQ(k), m)) && (forall m <- s.flight :: !Picks(ResF(k), m))
  }

  /** A download whose only outstanding message is a good request. */
  lemma AwaitsRequest(s: Net, k: Key, src: Content, r: Msg)
    requires k.q in s.peers && k.p in s.peers && s.peers[k.q].st.AuthOk? && s.peers[k.p].st.AuthOk? && |src| <= MAX_OFF
    requires Downloads(s.peers[k.q], k.p, k.oid, src)
    requires SoleRequest(s, k, r)
    requires GoodReq(r, k.oid, Entry(s.peers[k.q], k.p, k.oid).offset, src) && Offers(s.peers[k.p], k.q, k.oid, src)
    ensures RunningOk(s, k, src)
  {
    hide Picks, GoodReq, GoodRes, FindTransfer, Count, Offers, Downloads;
  }

  /** The download's only outstanding message is the request `r` that was just queued. */
  lemma OnlyRequest(s: Net, s': Net, k: Key, r: Msg)
    requires k.q in s.peers && k.p in s.peers && k.q in s'.peers && k.p in s'.peers
    requires s'.peers[k.q].queue == s.peers[k.q].queue + [r] && r.mtype == GETFILE_REQ
    requires k.p != k.q ==> s'.peers[k.p].queue == s.peers[k.p].queue
    requires Count(s.peers[k.q].queue, ReqQ(k)) == 0 && Count(s'.flight, ReqF(k)) == 0
    requires Count(s.peers[k.p].queue, ResQ(k)) == 0 && Count(s'.flight, ResF(k)) == 0
    ensures SoleRequest(s', k, r)
  {
    hide Count, OidOf;
    CountZero(s.peers[k.q].queue, ReqQ(k));
    CountZero(s'.flight, ReqF(k));
    CountZero(s.peers[k.p].queue, ResQ(k));
    CountZero(s'.flight, ResF(k));
  }

  /** An offer of the file being downloaded stands, also when the offering client is the same. */
  lemma OfferStands(s: Net, s': Net, k: Key, t: Transfer, src: Content)
    requires k.q in s.peers && k.p in s.peers && k.q in s'.peers && s'.peers == s.peers[k.q := s'.peers[k.q]]
    requires Touched(s.peers[k.q], s'.peers[k.q], k.p, k.oid, t) && Apart(s, k, k)
    requires Offers(s.peers[k.p], k.q, k.oid, src)
    ensures Offers(s'.peers[k.p], k.q, k.oid, src)
  {
    hide Touched, DownloadNames, Offers, OfferedNames;
    if k.p == k.q { TouchedOffer(s.peers[k.q], s'.peers[k.q], k.p, k.oid, t, k.q, k.oid); }
  }

  lemma OfferNeeded(s: Net, k: Key, src: Content)
    requires k.q in s.peers && k.p in s.peers && RunningOk(s, k, src) && Entry(s.peers[k.q], k.p, k.oid).offset < |src|
    ensures Offers(s.peers[k.p], k.q, k.oid, src)
  {
    hide FindTransfer, Offers, GoodReq, GoodRes, Count;
  }

  lemma TakingRunning(s: Net, n: nat, s': Net, o: Option<Msg>)
    requires GoodTaking(s, n, s', o)
    ensures n < |s.flight| && (var k := KeyOf(s.flight[n]);
            k in s.running && k.q in s.peers && k.p in s.peers && RunningOk(s, k, s.running[k]))
    ensures AllApart(s) ==> Apart(s, KeyOf(s.flight[n]), KeyOf(s.flight[n]))
  {
    hide RunningOk, FindTransfer, OidOf, Downloads, GoodReq, FileNames, OfferNames;
  }

  lemma TakingFacts(s: Net, n: nat, s': Net, t: Transfer, r: Msg)
    requires AfterResponse(s, n, s', t, Some(r)) && GoodTaking(s, n, s', Some(r))
    ensures var k := KeyOf(s.flight[n]);
            var c' := s'.peers[k.q];
            && s'.peers == s.peers[k.q := c'] && s'.flight == Without(s.flight, n)
            && Touched(s.peers[k.q], c', k.p, k.oid, t)
            && c'.queue == s.peers[k.q].queue + [r] && r.mtype == GETFILE_REQ && Downloads(c', k.p, k.oid, s.running[k])
            && Entry(s.peers[k.q], k.p, k.oid).offset < Entry(c', k.p, k.oid).offset
            && GoodReq(r, k.oid, Entry(c', k.p, k.oid).offset, s.running[k])
  {
    hide RunningOk, FindTransfer, FindPending, OidOf, Downloads, GoodReq, Touched;
  }

  lemma ResponseOwn(s: Net, n: nat, s': Net, t: Transfer, r: Msg)
    requires Inv(s) && AfterResponse(s, n, s', t, Some(r)) && GoodTaking(s, n, s', Some(r))
    ensures var k := KeyOf(s.flight[n]); k.p in s'.peers && RunningOk(s', k, s.running[k])
  {
    TakingRunning(s, n, s', Some(r));
    var k := KeyOf(s.flight[n]);
    var src := s.running[k];
    assert s.flight[n].mtype == GETFILE_RES && AllApart(s) && s.flight[n].dst in s.peers;
    hide Inv, FindTransfer, OidOf, GoodReq, Touched, Downloads, Offers, RunningOk, AfterResponse, GoodTaking;
    hide FlightShrinks, SoleRequest, AllApart, Apart;
    SenderReady(s, k);
    ResponseStates(s, n, s', t, Some(r));
    TakingFacts(s, n, s', t, r);
    OwnRequest(s, n, s', r);
    OwnOfferStands(s, s', k, t, src);
    AwaitsRequest(s', k, src, r);
  }

  lemma OwnRequest(s: Net, n: nat, s': Net, r: Msg)
    requires Inv(s) && n < |s.flight| && s.flight[n].mtype == GETFILE_RES && s.flight[n].dst in s.peers
    requires var k := KeyOf(s.flight[n]);
             && k.q in s'.peers && k.p in s'.peers && s'.peers == s.peers[k.q := s'.peers[k.q]]
             && s'.peers[k.q].queue == s.peers[k.q].queue + [r] && s'.flight == Without(s.flight, n)
    requires r.mtype == GETFILE_REQ
    ensures SoleRequest(s', KeyOf(s.flight[n]), r)
  {
    hide RunningOk, GoodRes, OidOf, Count, Without, Picks, CountsOk, OwedOk, AllRunningOk, AllApart, Tidy, FindTransfer;
    ResponseInFlight(s, n);
    hide Inv;
    var k := KeyOf(s.flight[n]);
    CountWithout(s.flight, n, ReqF(k));
    CountWithout(s.flight, n, ResF(k));
    OnlyRequest(s, s', k, r);
  }

  lemma OwnOfferStands(s: Net, s': Net, k: Key, t: Transfer, src: Content)
    requires k.q in s.peers && k.p in s.peers && RunningOk(s, k, src) && Apart(s, k, k)
    requires k.q in s'.peers && s'.peers == s.peers[k.q := s'.peers[k.q]]
    requires Touched(s.peers[k.q], s'.peers[k.q], k.p, k.oid, t) && Downloads(s'.peers[k.q], k.p, k.oid, src)
    requires Entry(s.peers[k.q], k.p, k.oid).offset < Entry(s'.peers[k.q], k.p, k.oid).offset
    ensures k.p in s'.peers && Offers(s'.peers[k.p], k.q, k.oid, src)
  {
    hide RunningOk, Touched, Apart, Offers, Downloads, FindTransfer;
    EntryWithin(s'.peers[k.q], k.p, k.oid, src);
    OfferNeeded(s, k, src);
    OfferStands(s, s', k, t, src);
  }

  lemma EntryWithin(c: Clt, p: u64, oid: u64, src: Content)
    requires Downloads(c, p, oid, src)
    ensures Entry(c, p, oid).offset <= |src|
  {
    hide FindTransfer;
  }

  lemma ResponseNames(s: Net, n: nat, s': Net, t: Transfer, o: Option<Msg>)
    requires AfterResponse(s, n, s', t, o)
    ensures var k := KeyOf(s.flight[n]);
            && (o.Some? ==> FileNames(s', k) == FileNames(s, k)) && OfferNames(s', k) <= OfferNames(s, k)
  {
    hide FindTransfer, FindPending, OidOf, Touched, DownloadNames, OfferedNames;
    var k := KeyOf(s.flight[n]);
    TouchedState(s.peers[k.q], s'.peers[k.q], k, t);
    TouchedOffer(s.peers[k.q], s'.peers[k.q], k.p, k.oid, t, k.q, k.oid);
  }

  lemma ResponseOthers(s: Net, n: nat, s': Net, t: Transfer, o: Option<Msg>, k: Key)
    requires AfterResponse(s, n, s', t, o) && k != KeyOf(s.flight[n]) && KeyOf(s.flight[n]) in s.running
    requires k in s.running && k.q in s.peers && k.p in s.peers && RunningOk(s, k, s.running[k]) && AllApart(s)
    ensures k.q in s'.peers && k.p in s'.peers && RunningOk(s', k, s.running[k])
    ensures FileNames(s', k) == FileNames(s, k) && OfferNames(s', k) <= OfferNames(s, k)
  {
    assert Apart(s, KeyOf(s.flight[n]), k);
    hide FindTransfer, FindPending, OidOf, Touched, RunningOk, Apart, FileNames, OfferNames;
    ResponseStates(s, n, s', t, o);
    TouchedOthers(s, s', KeyOf(s.flight[n]), t, k);
  }

  lemma AfterResponseKeeps(s: Net, n: nat, s': Net, t: Transfer, o: Option<Msg>)
    requires Inv(s) && AfterResponse(s, n, s', t, o) && GoodTaking(s, n, s', o)
    ensures Inv(s')
  {
    hide AfterResponse, GoodTaking, Outstanding, Owed, Pending, RunningOk, FileNames, OfferNames, FlightShrinks;
    ResponseStates(s, n, s', t, o);
    TakingRunning(s, n, s', o);
    var key := KeyOf(s.flight[n]);
    assert CountsOk(s') by {
      forall k: Key | k.q in s'.peers && k.p in s'.peers
        ensures Outstanding(s', k) == if k in s'.running then 1 else 0
      {
        ResponseCounts(s, n, s', t, o, k);
      }
    }
    assert OwedOk(s') by {
      forall q, p, trf | q in s'.peers && p in s'.peers
        ensures Owed(s', q, p, trf) <= Pending(s'.peers[q], p, trf)
      {
        ResponseOwed(s, n, s', t, o, q, p, trf);
      }
    }
    forall k <- s'.running
      ensures k.q in s'.peers && k.p in s'.peers && RunningOk(s', k, s.running[k])
      ensures FileNames(s', k) == FileNames(s, k) && OfferNames(s', k) <= OfferNames(s, k)
    {
      if k == key {
        ResponseOwn(s, n, s', t, o.value);
        ResponseNames(s, n, s', t, o);
      } else {
        ResponseOthers(s, n, s', t, o, k);
      }
    }
    ApartCarries(s, s');
    ResponseTidy(s, n, s', t, o);
  }

  lemma TakeKeeps(s: Net, n: nat, env: Env)
    requires Inv(s) && n < |s.flight| && s.flight[n].mtype == GETFILE_RES && s.flight[n].dst in s.peers
    requires env.Ok() && env.HostOk()
    ensures Inv(Delivered(s, n, env))
  {
    var t, o := Taken(s, n, env);
    hide Delivered;
    AfterResponseKeeps(s, n, Delivered(s, n, env), t, o);
  }
}
