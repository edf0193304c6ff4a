/** A request for a piece reaches the offering client. */
module TransferServe {
  import opened Bytes
  import opened Message
  import opened ClientSpec
  import opened TransferFacts
  import opened Transfers
  import opened TransferFrame

  /** Changing the entry found for one key, without giving it another key, is invisible to other keys. */
  lemma EntryChanged(l: seq<Transfer>, kind0: Kind, rid0: u64, oid0: u64, t: Transfer, kind: Kind, rid: u64, oid: u64)
    requires FindTransfer(l, kind0, rid0, oid0) < |l| && (kind, rid, oid) != (kind0, rid0, oid0)
    requires Matches(t, kind0, rid0, oid0) || t.tact <= 0
    ensures var k0, k := FindTransfer(l, kind0, rid0, oid0), FindTransfer(l, kind, rid, oid);
            && FindTransfer(l[k0 := t], kind, rid, oid) == k
            && (k < |l| ==> k != k0 && l[k0 := t][k] == l[k])
  {
    FindOther(l, FindTransfer(l, kind0, rid0, oid0), t, kind, rid, oid);
  }

  /** A GETFILE request in flight belongs to a running download and is all that is outstanding of it. */
  lemma RequestInFlight(s: Net, n: nat)
    requires Inv(s) && n < |s.flight| && s.flight[n].mtype == GETFILE_REQ && s.flight[n].dst in s.peers
    ensures var m := s.flight[n];
            var k := KeyOf(m);
            && k in s.running && k.q in s.peers && k.p in s.peers && RunningOk(s, k, s.running[k])
            && Picks(ReqF(k), m) && Count(s.peers[k.q].queue, ReqQ(k)) == 0 && Count(s.flight, ReqF(k)) == 1
            && Count(s.peers[k.p].queue, ResQ(k)) == 0 && Count(s.flight, ResF(k)) == 0
            && Offers(s.peers[k.p], k.q, k.oid, s.running[k])
            && GoodReq(m, k.oid, Entry(s.peers[k.q], k.p, k.oid).offset, s.running[k])
  {
    hide Count, OidOf, Offers, Downloads, GoodReq, GoodRes, OwedOk, AllApart, FindTransfer;
    var m := s.flight[n];
    var k := KeyOf(m);
    assert m in s.flight;
    CountWithout(s.flight, n, ReqF(k));
    assert Outstanding(s, k) >= 1;
  }

  /** What an offering client does with a good request: the next piece, or nothing if nothing was asked for. */
  ghost predicate AnswerOf(c: Clt, m: Msg, env: Env, oid: u64, offset: nat, src: Content, t: Transfer, r: Msg) {
    var k := FindTransfer(c.transfers, Offer, m.src, oid);
    && k < |c.transfers|
    && ProcessSrvMsg(c, m, env) == c.(transfers := c.transfers[k := t], queue := c.queue + [r])
    && r.mtype == GETFILE_RES && r.dst == m.src && r.trf == m.trf && OidOf(r) == oid && r.Fits()
    && GoodRes(r, oid, offset, src)
    && (if offset < |src| then Matches(t, Offer, m.src, oid) && t.name == c.transfers[k].name else t.tact <= 0)
  }

  /** A piece that an honest peer asks for fits one message. */
  lemma ServePiece(c: Clt, m: Msg, env: Env, oid: u64, offset: u64, size: u64, src: Content) returns (data: Content)
    requires c.st.AuthOk? && env.Ok() && m.mtype == GETFILE_REQ
    requires env.mem >= MAX_DATA_SIZE
    requires Attrs(m) == [Attr(OFFERID, Be(oid, 8)), Attr(OFFSET, Be(offset, 8)), Attr(SIZE, Be(size, 8))]
    requires Offers(c, m.src, oid, src) && |src| <= MAX_OFF && offset < |src| && 0 < size <= MAX_DATA_SIZE
    ensures var (c', reply) := OnGetFile(c, m, env);
            var k := FindTransfer(c.transfers, Offer, m.src, oid);
            && Piece(src, offset, MAX_DATA_SIZE, data) && reply == Some(FileData(m.src, m.trf, env.ts, oid, data))
            && c' == c.(transfers := c.transfers[k := c'.transfers[k]])
            && Matches(c'.transfers[k], Offer, m.src, oid) && c'.transfers[k].name == c.transfers[k].name
  {
    hide FindTransfer, OnGetFile, FileData, Attrs, Matches, Offers, Be;
    Serve(c, m, env, oid, offset, size, src);
    var (c', reply) := OnGetFile(c, m, env);
    data :| Piece(src, offset, size, data)
            && (if |data| <= MAX_DATA_SIZE
                then reply == Some(FileData(m.src, m.trf, env.ts, oid, data)) && c'.dead == c.dead
                else reply == None && c'.dead);
  }

  lemma Answer(c: Clt, m: Msg, env: Env, oid: u64, offset: nat, src: Content) returns (t: Transfer, r: Msg)
    requires m.mtype == GETFILE_REQ && env.Ok() && GoodReq(m, oid, offset, src)
    requires env.mem >= MAX_DATA_SIZE
    requires c.st.AuthOk? && offset <= |src| <= MAX_OFF && Offers(c, m.src, oid, src)
    ensures AnswerOf(c, m, env, oid, offset, src, t, r)
  {
    hide FindTransfer, OnGetFile, FileData, GoodRes, Attrs, OidOf, Matches;
    var size := ReqSize(m, oid, offset, src);
    var k := FindTransfer(c.transfers, Offer, m.src, oid);
    if size == 0 {
      ServeEnd(c, m, env, oid, offset);
      r := FileData(m.src, m.trf, env.ts, oid, []);
      GoodFileData(m, env, oid, offset, src, []);
    } else {
      var data := ServePiece(c, m, env, oid, offset, size, src);
      r := FileData(m.src, m.trf, env.ts, oid, data);
      GoodFileData(m, env, oid, offset, src, data);
    }
    t := OnGetFile(c, m, env).0.transfers[k];
    hide Offers, Piece, GoodReq;
    assert Receive(c, m, env) == OnGetFile(c, m, env);
  }

  /** The answer to a request in flight. */
  lemma AnswerInFlight(s: Net, n: nat, env: Env) returns (t: Transfer, r: Msg)
    requires Inv(s) && n < |s.flight| && s.flight[n].mtype == GETFILE_REQ && s.flight[n].dst in s.peers && env.Ok()
    requires env.mem >= MAX_DATA_SIZE
    ensures var m := s.flight[n];
            var k := KeyOf(m);
            && k in s.running && k.q in s.peers && k.p in s.peers && RunningOk(s, k, s.running[k])
            && FindTransfer(s.peers[k.q].transfers, Download, k.p, k.oid) < |s.peers[k.q].transfers|
            && AnswerOf(s.peers[m.dst], m, env, k.oid, Entry(s.peers[k.q], k.p, k.oid).offset, s.running[k], t, r)
  {
    RequestInFlight(s, n);
    hide Inv, FindTransfer, AnswerOf, GoodReq, Picks, Count, OidOf;
    var m := s.flight[n];
    var k := KeyOf(m);
    SenderReady(s, k);
    hide RunningOk, Offers;
    t, r := Answer(s.peers[m.dst], m, env, k.oid, Entry(s.peers[k.q], k.p, k.oid).offset, s.running[k]);
  }

  lemma SenderReady(s: Net, k: Key)
    requires k in s.running && k.q in s.peers && k.p in s.peers && RunningOk(s, k, s.running[k])
    ensures s.peers[k.p].st.AuthOk? && s.peers[k.q].st.AuthOk? && |s.running[k]| <= MAX_OFF
    ensures Downloads(s.peers[k.q], k.p, k.oid, s.running[k])
    ensures Entry(s.peers[k.q], k.p, k.oid).offset <= |s.running[k]|
  {
    hide FindTransfer;
  }

  ghost predicate GoodReqWith(m: Msg, oid: u64, offset: u64, src: Content, size: u64) {
    && offset <= MAX_OFF && size <= MAX_DATA_SIZE && (size == 0 <==> offset == |src|)
    && Attrs(m) == [Attr(OFFERID, Be(oid, 8)), Attr(OFFSET, Be(offset, 8)), Attr(SIZE, Be(size, 8))]
  }

  lemma ReqSize(m: Msg, oid: u64, offset: u64, src: Content) returns (size: u64)
    requires GoodReq(m, oid, offset, src)
    ensures GoodReqWith(m, oid, offset, src, size)
  {
    hide Attrs, Be;
    size :| offset <= MAX_OFF && size <= MAX_DATA_SIZE && (size == 0 <==> offset == |src|)
            && Attrs(m) == [Attr(OFFERID, Be(oid, 8)), Attr(OFFSET, Be(offset, 8)), Attr(SIZE, Be(size, 8))];
  }

  lemma GoodFileData(m: Msg, env: Env, oid: u64, offset: u64, src: Content, data: Content)
    requires if data == [] then offset == |src| else Piece(src, offset, MAX_DATA_SIZE, data)
    ensures var r := FileData(m.src, m.trf, env.ts, oid, data);
            GoodRes(r, oid, offset, src) && OidOf(r) == oid && r.Fits()
            && r.mtype == GETFILE_RES && r.dst == m.src && r.trf == m.trf
  {
    hide Tlv, EncAttr;
    FileDataAttrs(m.src, m.trf, env.ts, oid, data);
    PieceFits(m.src, m.trf, env.ts, oid, data);
    U64OfBe(oid);
    hide U64Of, Be;
    var r := FileData(m.src, m.trf, env.ts, oid, data);
    hide FileData;
    assert Attrs(r) == [Attr(OFFERID, Be(oid, 8)), Attr(DATA, data)];
  }

  // ----- what it keeps -----

  /** The state after the request has been answered with `r`; `t` is the offer's entry afterwards. */
  ghost predicate AfterRequest(s: Net, n: nat, s': Net, t: Transfer, r: Msg) {
    && n < |s.flight| && s.flight[n].dst in s.peers && s.flight[n].mtype == GETFILE_REQ
    && var m := s.flight[n];
       var c := s.peers[m.dst];
       var k := FindTransfer(c.transfers, Offer, m.src, OidOf(m));
       && k < |c.transfers|
       && s' == s.(peers := s.peers[m.dst := c.(transfers := c.transfers[k := t], queue := c.queue + [r])],
                   flight := Without(s.flight, n))
       && r.mtype == GETFILE_RES && r.dst == m.src && r.trf == m.trf && OidOf(r) == OidOf(m)
       && ((Matches(t, Offer, m.src, OidOf(m)) && t.name == c.transfers[k].name) || t.tact <= 0)
  }

  lemma RequestCounts(s: Net, n: nat, s': Net, t: Transfer, r: Msg, k: Key)
    requires AfterRequest(s, n, s', t, r) && k.q in s.peers && k.p in s.peers
    ensures Outstanding(s', k) == Outstanding(s, k)
  {
    hide Count, OidOf, FindTransfer;
    var m := s.flight[n];
    var x := m.dst;
    CountWithout(s.flight, n, ReqF(k));
    CountWithout(s.flight, n, ResF(k));
    CountAppend(s.peers[x].queue, r, ReqQ(k));
    CountAppend(s.peers[x].queue, r, ResQ(k));
  }

  lemma RequestOwed(s: Net, n: nat, s': Net, t: Transfer, r: Msg, q: u64, p: u64, trf: u64)
    requires AfterRequest(s, n, s', t, r) && q in s.peers && p in s.peers
    ensures Owed(s', q, p, trf) == Owed(s, q, p, trf) && Pending(s'.peers[q], p, trf) == Pending(s.peers[q], p, trf)
  {
    hide Count, OidOf, FindTransfer;
    var m := s.flight[n];
    CountWithout(s.flight, n, Sel(GETFILE_REQ, Some(q), p, None, Some(trf)));
    CountWithout(s.flight, n, Sel(GETFILE_RES, Some(p), q, None, Some(trf)));
    CountAppend(s.peers[m.dst].queue, r, Sel(GETFILE_RES, None, q, None, Some(trf)));
  }

  /** No download's entry changes. */
  lemma RequestEntry(s: Net, n: nat, s': Net, t: Transfer, r: Msg, q: u64, p: u64, oid: u64)
    requires AfterRequest(s, n, s', t, r) && q in s.peers
    ensures var l, l' := s.peers[q].transfers, s'.peers[q].transfers;
            var k := FindTransfer(l, Download, p, oid);
            FindTransfer(l', Download, p, oid) == k && |l'| == |l| && (k < |l| ==> l'[k] == l[k])
  {
    hide OidOf, Matches, FindTransfer;
    var m := s.flight[n];
    if q == m.dst { EntryChanged(s.peers[q].transfers, Offer, m.src, OidOf(m), t, Download, p, oid); }
  }

  lemma RequestDownloads(s: Net, n: nat, s': Net, t: Transfer, r: Msg, q: u64, p: u64, oid: u64, src: Content)
    requires AfterRequest(s, n, s', t, r) && q in s.peers && Downloads(s.peers[q], p, oid, src)
    ensures Downloads(s'.peers[q], p, oid, src) && Entry(s'.peers[q], p, oid) == Entry(s.peers[q], p, oid)
    ensures s'.peers[q].st == s.peers[q].st
    ensures DownloadNames(s'.peers[q], p, oid) == DownloadNames(s.peers[q], p, oid)
  {
    hide OidOf, Matches, FindTransfer;
    RequestEntry(s, n, s', t, r, q, p, oid);
  }

  /** Other offers do not notice. */
  lemma RequestOffers(s: Net, n: nat, s': Net, t: Transfer, r: Msg, p: u64, q: u64, oid: u64, src: Content)
    requires AfterRequest(s, n, s', t, r) && p in s.peers && Offers(s.peers[p], q, oid, src)
    requires KeyOf(s.flight[n]) != Key(q, p, oid)
    ensures Offers(s'.peers[p], q, oid, src)
  {
    hide OidOf, Matches, FindTransfer;
    var m := s.flight[n];
    if p == m.dst { EntryChanged(s.peers[p].transfers, Offer, m.src, OidOf(m), t, Offer, q, oid); }
  }

  /** Other downloads do not notice. */
  lemma RequestOthers(s: Net, n: nat, s': Net, t: Transfer, r: Msg, k: Key)
    requires AfterRequest(s, n, s', t, r) && k != KeyOf(s.flight[n])
    requires k in s.running && k.q in s.peers && k.p in s.peers && RunningOk(s, k, s.running[k])
    ensures RunningOk(s', k, s.running[k])
    ensures FileNames(s', k) == FileNames(s, k)
  {
    hide Count, OidOf, FindTransfer, Matches, GoodReq, GoodRes, Downloads, Offers, DownloadNames;
    var x := s.flight[n].dst;
    RequestDownloads(s, n, s', t, r, k.q, k.p, k.oid, s.running[k]);
    if Offers(s.peers[k.p], k.q, k.oid, s.running[k]) {
      RequestOffers(s, n, s', t, r, k.p, k.q, k.oid, s.running[k]);
    }
    CountWithout(s.flight, n, ReqF(k));
    CountAppend(s.peers[x].queue, r, ReqQ(k));
    assert forall m <- s'.flight :: m in s.flight;
    RunningCarries(s, s', k, s.running[k]);
  }

  /** The answer is what the download needs next. */
  ghost predicate GoodAnswer(s: Net, n: nat, t: Transfer, r: Msg) {
    && n < |s.flight|
    && var k := KeyOf(s.flight[n]);
       && k in s.running && k.q in s.peers && k.p in s.peers && RunningOk(s, k, s.running[k])
       && var offset := Entry(s.peers[k.q], k.p, k.oid).offset;
          GoodRes(r, k.oid, offset, s.running[k]) && (offset < |s.running[k]| ==> t.tact > 0)
  }

  /** The download itself now waits for the response. */
  lemma RequestOwn(s: Net, n: nat, s': Net, t: Transfer, r: Msg)
    requires Inv(s) && AfterRequest(s, n, s', t, r) && GoodAnswer(s, n, t, r)
    ensures var k := KeyOf(s.flight[n]); RunningOk(s', k, s.running[k]) && FileNames(s', k) == FileNames(s, k)
  {
    var k := KeyOf(s.flight[n]);
    var src := s.running[k];
    RequestInFlight(s, n);
    RequestStates(s, n, s', t, r);
    SenderReady(s, k);
    hide Inv, RunningOk, GoodReq, GoodRes, Matches, FindTransfer, OidOf, Count, Offers, Downloads, DownloadNames, Picks;
    OwnMessages(s, n, s', t, r);
    RequestDownloads(s, n, s', t, r, k.q, k.p, k.oid, src);
    if t.tact > 0 { OwnOffer(s, n, s', t, r, src); }
    hide AfterRequest;
    AwaitsResponse(s', k, src, Entry(s.peers[k.q], k.p, k.oid).offset, r);
  }

  /** A download whose only outstanding message is a good response. */
  lemma AwaitsResponse(s: Net, k: Key, src: Content, offset: nat, r: Msg)
    requires k.q in s.peers && k.p in s.peers && s.peers[k.q].st.AuthOk? && s.peers[k.p].st.AuthOk? && |src| <= MAX_OFF
    requires Downloads(s.peers[k.q], k.p, k.oid, src) && Entry(s.peers[k.q], k.p, k.oid).offset == offset
    requires forall m <- s.peers[k.q].queue :: !Picks(ReqQ(k), m)
    requires forall m <- s.flight :: !Picks(ReqF(k), m)
    requires forall m <- s.peers[k.p].queue | Picks(ResQ(k), m) :: m == r
    requires forall m <- s.flight :: !Picks(ResF(k), m)
    requires Count(s.peers[k.q].queue, ReqQ(k)) == 0 && Count(s.flight, ReqF(k)) == 0
    requires GoodRes(r, k.oid, offset, src) && (offset < |src| ==> Offers(s.peers[k.p], k.q, k.oid, src))
    ensures RunningOk(s, k, src)
  {
    hide Picks, GoodReq, GoodRes, FindTransfer, Count, Offers, Downloads;
  }

  lemma RequestStates(s: Net, n: nat, s': Net, t: Transfer, r: Msg)
    requires AfterRequest(s, n, s', t, r)
    ensures n < |s.flight| && s'.peers.Keys == s.peers.Keys && s'.running == s.running
    ensures forall x <- s.peers :: s'.peers[x].st == s.peers[x].st
  {
    hide FindTransfer, OidOf, Matches;
  }

  /** Of this download, the response is all that is outstanding. */
  lemma OwnMessages(s: Net, n: nat, s': Net, t: Transfer, r: Msg)
    requires AfterRequest(s, n, s', t, r)
    requires var k := KeyOf(s.flight[n]);
             && k.q in s.peers && k.p in s.peers
             && Count(s.peers[k.q].queue, ReqQ(k)) == 0 && Count(s.flight, ReqF(k)) == 1
             && Count(s.peers[k.p].queue, ResQ(k)) == 0 && Count(s.flight, ResF(k)) == 0
    ensures var k := KeyOf(s.flight[n]);
            && Count(s'.peers[k.q].queue, ReqQ(k)) == 0 && Count(s'.flight, ReqF(k)) == 0
            && (forall x <- s'.peers[k.q].queue :: !Picks(ReqQ(k), x)) && (forall x <- s'.flight :: !Picks(ReqF(k), x))
            && (forall x <- s'.peers[k.p].queue | Picks(ResQ(k), x) :: x == r)
            && (forall x <- s'.flight :: !Picks(ResF(k), x))
  {
    hide Count, OidOf, FindTransfer, Matches;
    var m := s.flight[n];
    var k := KeyOf(m);
    CountWithout(s.flight, n, ReqF(k));
    CountWithout(s.flight, n, ResF(k));
    CountZero(s'.flight, ReqF(k));
    CountZero(s'.flight, ResF(k));
    CountAppend(s.peers[k.p].queue, r, ReqQ(k));
    CountZero(s.peers[k.p].queue, ResQ(k));
    CountZero(s'.peers[k.q].queue, ReqQ(k));
  }

  lemma OwnOffer(s: Net, n: nat, s': Net, t: Transfer, r: Msg, src: Content)
    requires AfterRequest(s, n, s', t, r) && t.tact > 0
    requires Offers(s.peers[s.flight[n].dst], s.flight[n].src, OidOf(s.flight[n]), src)
    ensures Offers(s'.peers[s.flight[n].dst], s.flight[n].src, OidOf(s.flight[n]), src)
  {
    hide OidOf;
    var m := s.flight[n];
    var l := s.peers[m.dst].transfers;
    FindSame(l, FindTransfer(l, Offer, m.src, OidOf(m)), t, Offer, m.src, OidOf(m));
    hide FindTransfer, Matches;
  }

  lemma RequestNames(s: Net, n: nat, s': Net, t: Transfer, r: Msg, k: Key)
    requires AfterRequest(s, n, s', t, r)
    ensures OfferNames(s', k) <= OfferNames(s, k)
  {
    hide FindTransfer, OidOf;
    var m := s.flight[n];
    var l := s.peers[m.dst].transfers;
    var i := FindTransfer(l, Offer, m.src, OidOf(m));
    assert forall x <- l[i := t] :: x == t || x in l;
    assert l[i] in l;
  }

  lemma Served(s: Net, n: nat, env: Env) returns (t: Transfer, r: Msg)
    requires Inv(s) && n < |s.flight| && s.flight[n].mtype == GETFILE_REQ && s.flight[n].dst in s.peers && env.Ok()
    requires env.mem >= MAX_DATA_SIZE
    ensures AfterRequest(s, n, Delivered(s, n, env), t, r) && GoodAnswer(s, n, t, r)
  {
    t, r := AnswerInFlight(s, n, env);
    hide Inv, RunningOk, FindTransfer, ProcessSrvMsg, OidOf, GoodRes;
  }

  lemma ServeKeeps(s: Net, n: nat, env: Env)
    requires Inv(s) && n < |s.flight| && s.flight[n].mtype == GETFILE_REQ && s.flight[n].dst in s.peers && env.Ok()
    requires env.mem >= MAX_DATA_SIZE
    ensures Inv(Delivered(s, n, env))
  {
    var t, r := Served(s, n, env);
    hide Delivered;
    AfterRequestKeeps(s, n, Delivered(s, n, env), t, r);
  }

  lemma AfterRequestKeeps(s: Net, n: nat, s': Net, t: Transfer, r: Msg)
    requires Inv(s) && AfterRequest(s, n, s', t, r) && GoodAnswer(s, n, t, r)
    ensures Inv(s')
  {
    hide AfterRequest, GoodAnswer, Outstanding, Owed, Pending, RunningOk, FileNames, OfferNames;
    RequestStates(s, n, s', t, r);
    assert CountsOk(s') by {
      forall k: Key | k.q in s'.peers && k.p in s'.peers
        ensures Outstanding(s', k) == if k in s'.running then 1 else 0
      {
        RequestCounts(s, n, s', t, r, k);
      }
    }
    assert OwedOk(s') by {
      forall q, p, trf | q in s'.peers && p in s'.peers
        ensures Owed(s', q, p, trf) <= Pending(s'.peers[q], p, trf)
      {
        RequestOwed(s, n, s', t, r, q, p, trf);
      }
    }
    forall k <- s.running
      ensures k.q in s'.peers && k.p in s'.peers && RunningOk(s', k, s.running[k])
      ensures FileNames(s', k) == FileNames(s, k) && OfferNames(s', k) <= OfferNames(s, k)
    {
      RequestNames(s, n, s', t, r, k);
      if k == KeyOf(s.flight[n]) {
        RequestOwn(s, n, s', t, r);
      } else {
        RequestOthers(s, n, s', t, r, k);
      }
    }
    ApartCarries(s, s');
    RequestTidy(s, n, s', t, r);
  }

  lemma RequestTidy(s: Net, n: nat, s': Net, t: Transfer, r: Msg)
    requires Tidy(s) && AfterRequest(s, n, s', t, r)
    ensures Tidy(s')
  {
    hide FindTransfer, OidOf, Matches;
  }
}
