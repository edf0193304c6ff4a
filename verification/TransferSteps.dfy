/** Accepting an offer, deliveries that concern no download, and all steps together. */
module TransferSteps {
  import opened Bytes
  import opened Message
  import opened ClientSpec
  import opened TransferFacts
  import opened Transfers
  import opened TransferFrame
  import opened TransferServe
  import opened TransferTake

  // ----- accepting -----

  /** What `accept` does to the client: the download is set up and its first piece requested with `r`. */
  ghost predicate AcceptedOf(c: Clt, k: Key, src: Content, c': Clt, t: Transfer, r: Msg) {
    && Touched(c, c', k.p, k.oid, t) && t.tact > 0 && c'.pending == c.pending && c'.queue == c.queue + [r]
    && r.mtype == GETFILE_REQ && r.dst == k.p && OidOf(r) == k.oid
    && Downloads(c', k.p, k.oid, src) && Entry(c', k.p, k.oid).offset < |src|
    && GoodReq(r, k.oid, Entry(c', k.p, k.oid).offset, src)
  }

  lemma FirstRequest(dst: u64, env: Env, oid: u64, offset: u64, src: Content)
    requires offset < |src| <= MAX_OFF
    ensures var r := GetFile(dst, env.rnd, env.ts, oid, offset, Chunk(|src|));
            r.mtype == GETFILE_REQ && r.dst == dst && OidOf(r) == oid && GoodReq(r, oid, offset, src)
  {
    hide EncAttr, Tlv;
    GetFileAttrs(dst, env.rnd, env.ts, oid, offset, Chunk(|src|));
    U64OfBe(oid);
    hide U64Of, Be;
    var r := GetFile(dst, env.rnd, env.ts, oid, offset, Chunk(|src|));
    assert GoodReqWith(r, oid, offset, src, Chunk(|src|));
    hide GetFile;
  }

  lemma Accepts(c: Clt, k: Key, src: Content, env: Env) returns (t: Transfer, r: Msg)
    requires env.Ok() && env.HostOk() && |src| <= MAX_OFF
    requires FindTransfer(c.transfers, Download, k.p, k.oid) < |c.transfers| && Acceptable(c, k, src)
    ensures var (c', reply) := AcceptOffer(c, k.p, k.oid, env);
            AcceptedOf(c, k, src, Queued(c', reply), t, r)
  {
    hide FindTransfer, AcceptOffer, GetFile, Chunk, OidOf, GoodReq;
    var i := FindTransfer(c.transfers, Download, k.p, k.oid);
    var d := c.transfers[i];
    Start(c, k.p, k.oid, env, src);
    var (c', reply) := AcceptOffer(c, k.p, k.oid, env);
    t := c'.transfers[i];
    FindSame(c.transfers, i, t, Download, k.p, k.oid);
    r := reply.value;
    FirstRequest(k.p, env, k.oid, t.offset, src);
  }

  /** The state after accepting. */
  ghost predicate AfterAccept(s: Net, k: Key, src: Content, s': Net, t: Transfer, r: Msg) {
    && k.q in s.peers && k.p in s.peers && k.q in s'.peers
    && AcceptedOf(s.peers[k.q], k, src, s'.peers[k.q], t, r)
    && s' == Net(s.peers[k.q := s'.peers[k.q]], s.flight, s.running[k := src])
  }

  lemma AcceptStates(s: Net, k: Key, src: Content, s': Net, t: Transfer, r: Msg)
    requires AfterAccept(s, k, src, s', t, r)
    ensures s'.peers.Keys == s.peers.Keys && s'.peers == s.peers[k.q := s'.peers[k.q]] && s'.flight == s.flight
    ensures s'.running == s.running[k := src] && Touched(s.peers[k.q], s'.peers[k.q], k.p, k.oid, t) && t.tact > 0
    ensures s'.peers[k.q].queue == s.peers[k.q].queue + [r] && r.mtype == GETFILE_REQ && r.dst == k.p
    ensures OidOf(r) == k.oid
    ensures s'.peers[k.q].st == s.peers[k.q].st && s'.peers[k.q].pending == s.peers[k.q].pending
    ensures Downloads(s'.peers[k.q], k.p, k.oid, src) && GoodReq(r, k.oid, Entry(s'.peers[k.q], k.p, k.oid).offset, src)
  {
    hide FindTransfer, OidOf, Matches, DownloadNames, Downloads, GoodReq;
  }

  lemma AcceptCounts(s: Net, key: Key, src: Content, s': Net, t: Transfer, r: Msg, k: Key)
    requires AfterAccept(s, key, src, s', t, r) && k.q in s.peers && k.p in s.peers
    ensures Outstanding(s', k) == Outstanding(s, k) + if k == key then 1 else 0
  {
    hide Count, OidOf, FindTransfer, AfterAccept, Touched, Downloads, GoodReq;
    AcceptStates(s, key, src, s', t, r);
    CountAppend(s.peers[key.q].queue, r, ReqQ(k));
    CountAppend(s.peers[key.q].queue, r, ResQ(k));
  }

  lemma AcceptOwed(s: Net, key: Key, src: Content, s': Net, t: Transfer, r: Msg, q: u64, p: u64, trf: u64)
    requires AfterAccept(s, key, src, s', t, r) && q in s.peers && p in s.peers
    ensures Owed(s', q, p, trf) == Owed(s, q, p, trf) && Pending(s'.peers[q], p, trf) == Pending(s.peers[q], p, trf)
  {
    hide Count, OidOf, FindTransfer, AfterAccept, Touched, Downloads, GoodReq;
    AcceptStates(s, key, src, s', t, r);
    CountAppend(s.peers[key.q].queue, r, Sel(GETFILE_RES, None, q, None, Some(trf)));
  }

  lemma AcceptOthers(s: Net, key: Key, src: Content, s': Net, t: Transfer, r: Msg, k: Key)
    requires AfterAccept(s, key, src, s', t, r) && k != key && Apart(s, key, k)
    requires k in s.running && k.q in s.peers && k.p in s.peers && RunningOk(s, k, s.running[k])
    ensures RunningOk(s', k, s.running[k]) && FileNames(s', k) == FileNames(s, k)
    ensures OfferNames(s', k) <= OfferNames(s, k)
  {
    hide AfterAccept, FindTransfer, OidOf, Touched, Downloads, GoodReq, RunningOk, Apart, FileNames, OfferNames, Count;
    AcceptStates(s, key, src, s', t, r);
    TouchedOthers(s, s', key, t, k);
  }

  lemma AcceptNames(s: Net, k: Key, src: Content, s': Net, t: Transfer, r: Msg)
    requires AfterAccept(s, k, src, s', t, r)
    ensures FileNames(s', k) == FileNames(s, k) && OfferNames(s', k) <= OfferNames(s, k)
  {
    hide AfterAccept, FindTransfer, OidOf, Touched, Downloads, GoodReq, DownloadNames, OfferedNames;
    AcceptStates(s, k, src, s', t, r);
    TouchedState(s.peers[k.q], s'.peers[k.q], k, t);
    TouchedOffer(s.peers[k.q], s'.peers[k.q], k.p, k.oid, t, k.q, k.oid);
  }

  lemma AcceptOwn(s: Net, k: Key, src: Content, s': Net, t: Transfer, r: Msg)
    requires CanAccept(s, k, src) && AfterAccept(s, k, src, s', t, r) && CountsOk(s)
    ensures RunningOk(s', k, src)
  {
    assert Outstanding(s, k) == 0;
    hide CountsOk, AfterAccept, FindTransfer, OidOf, Touched, Downloads, GoodReq, Offers, Apart, Acceptable, Count;
    hide SoleRequest, Picks, ReqQ, ReqF, ResQ, ResF;
    AcceptStates(s, k, src, s', t, r);
    OnlyRequest(s, s', k, r);
    OfferStands(s, s', k, t, src);
    AwaitsRequest(s', k, src, r);
  }

  lemma AcceptApart(s: Net, k: Key, src: Content, s': Net)
    requires CanAccept(s, k, src) && AllApart(s) && s'.running.Keys == s.running.Keys + {k}
    requires forall x <- s'.running :: FileNames(s', x) == FileNames(s, x) && OfferNames(s', x) <= OfferNames(s, x)
    ensures AllApart(s')
  {
    hide FileNames, OfferNames, Acceptable, Offers, FindTransfer;
    forall x <- s'.running, y <- s'.running
      ensures Apart(s', x, y)
    {
      assert Apart(s, x, y);
    }
  }

  lemma AcceptTidy(s: Net, k: Key, src: Content, s': Net, t: Transfer, r: Msg)
    requires Tidy(s) && AfterAccept(s, k, src, s', t, r)
    ensures Tidy(s')
  {
    TouchedState(s.peers[k.q], s'.peers[k.q], k, t);
    hide FindTransfer, OidOf, Touched, Downloads, GoodReq;
  }

  lemma AcceptMessages(s: Net, key: Key, src: Content, s': Net, t: Transfer, r: Msg)
    requires CountsOk(s) && OwedOk(s) && key !in s.running && AfterAccept(s, key, src, s', t, r)
    ensures CountsOk(s') && OwedOk(s')
  {
    hide AfterAccept, Outstanding, Owed, Pending, Touched, Downloads, GoodReq, OidOf, FindTransfer;
    AcceptStates(s, key, src, s', t, r);
    forall k: Key | k.q in s'.peers && k.p in s'.peers
      ensures Outstanding(s', k) == if k in s'.running then 1 else 0
    {
      AcceptCounts(s, key, src, s', t, r, k);
    }
    forall q, p, trf | q in s'.peers && p in s'.peers
      ensures Owed(s', q, p, trf) <= Pending(s'.peers[q], p, trf)
    {
      AcceptOwed(s, key, src, s', t, r, q, p, trf);
    }
  }

  lemma AfterAcceptKeeps(s: Net, key: Key, src: Content, s': Net, t: Transfer, r: Msg)
    requires Inv(s) && CanAccept(s, key, src) && AfterAccept(s, key, src, s', t, r)
    ensures Inv(s')
  {
    hide RunningOk, FileNames, OfferNames, Touched, Downloads, GoodReq, OidOf, FindTransfer, CountsOk, OwedOk;
    hide AllApart, Tidy;
    hide CanAccept, AfterAccept;
    AcceptFresh(s, key, src);
    hide Apart;
    AcceptStates(s, key, src, s', t, r);
    AcceptMessages(s, key, src, s', t, r);
    forall k <- s'.running
      ensures k.q in s'.peers && k.p in s'.peers && RunningOk(s', k, s'.running[k])
      ensures FileNames(s', k) == FileNames(s, k) && OfferNames(s', k) <= OfferNames(s, k)
    {
      if k == key {
        AcceptOwn(s, key, src, s', t, r);
        AcceptNames(s, key, src, s', t, r);
      } else {
        AcceptOthers(s, key, src, s', t, r, k);
      }
    }
    AcceptApart(s, key, src, s');
    AcceptTidy(s, key, src, s', t, r);
  }

  lemma AcceptFresh(s: Net, key: Key, src: Content)
    requires CanAccept(s, key, src)
    ensures key !in s.running && key.q in s.peers && key.p in s.peers
    ensures forall k <- s.running :: Apart(s, key, k)
  {
    hide Offers, Acceptable, FindTransfer, Apart;
  }

  lemma AcceptedAfter(s: Net, k: Key, src: Content, env: Env) returns (t: Transfer, r: Msg)
    requires CanAccept(s, k, src) && env.Ok() && env.HostOk()
    ensures AfterAccept(s, k, src, Accepted(s, k, src, env), t, r)
  {
    hide FindTransfer, Offers, Acceptable, Apart, AcceptOffer, AcceptedOf;
    t, r := Accepts(s.peers[k.q], k, src, env);
  }

  lemma AcceptKeeps(s: Net, k: Key, src: Content, env: Env)
    requires Inv(s) && CanAccept(s, k, src) && env.Ok() && env.HostOk()
    ensures Inv(Accepted(s, k, src, env))
  {
    hide Inv, CanAccept, AfterAccept;
    var t, r := AcceptedAfter(s, k, src, env);
    AcceptFresh(s, k, src);
    hide Accepted;
    AfterAcceptKeeps(s, k, src, Accepted(s, k, src, env), t, r);
  }
}
