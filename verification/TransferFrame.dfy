/** What sending a message, and activity that concerns no download, keep of the transfers. */
module TransferFrame {
  import opened Bytes
  import opened Message
  import opened ClientSpec
  import opened TransferFacts
  import opened Transfers

  // ----- transmission -----

  lemma StampKeepsOid(m: Msg, p: u64)
    ensures OidOf(m.(src := p)) == OidOf(m) && Attrs(m.(src := p)) == Attrs(m)
  {}

  lemma StampedPicks(m: Msg, p: u64, k: Key)
    ensures One(m.(src := p), ReqF(k)) == if k.q == p then One(m, ReqQ(k)) else 0
    ensures One(m.(src := p), ResF(k)) == if k.p == p then One(m, ResQ(k)) else 0
  {
    hide Attrs, OidOf;
    StampKeepsOid(m, p);
  }

  lemma TransmitCounts(s: Net, p: u64, k: Key)
    requires p in s.peers && s.peers[p].queue != [] && k.q in s.peers && k.p in s.peers
    ensures Outstanding(Transmitted(s, p), k) == Outstanding(s, k)
  {
    hide Count, One, ReqQ, ReqF, ResQ, ResF;
    var m := s.peers[p].queue[0];
    StampedPicks(m, p, k);
    CountTail(s.peers[p].queue, ReqQ(k));
    CountTail(s.peers[p].queue, ResQ(k));
    CountAppend(s.flight, m.(src := p), ReqF(k));
    CountAppend(s.flight, m.(src := p), ResF(k));
  }

  lemma TransmitOwed(s: Net, x: u64, q: u64, p: u64, t: u64)
    requires x in s.peers && s.peers[x].queue != [] && q in s.peers && p in s.peers
    requires Owed(s, q, p, t) <= Pending(s.peers[q], p, t)
    ensures var s' := Transmitted(s, x); Owed(s', q, p, t) <= Pending(s'.peers[q], p, t)
  {
    hide Count;
    var m := s.peers[x].queue[0];
    var m' := m.(src := x);
    var a := Sel(GETFILE_REQ, Some(q), p, None, Some(t));
    var b, c := Sel(GETFILE_RES, None, q, None, Some(t)), Sel(GETFILE_RES, Some(p), q, None, Some(t));
    CountAppend(s.flight, m', a);
    CountAppend(s.flight, m', c);
    CountTail(s.peers[x].queue, b);
    if IsReq(m.mtype) {
      var d := Sel(GETFILE_REQ, None, p, None, Some(t));
      CountConcat([m], s.peers[x].pending, d);
      CountOne(m, d);
    }
  }

  /** A running download looks the same after a step that keeps its entries, files and messages. */
  lemma TransmitRunning(s: Net, x: u64, k: Key, src: Content)
    requires x in s.peers && s.peers[x].queue != [] && k.q in s.peers && k.p in s.peers && RunningOk(s, k, src)
    requires Outstanding(s, k) <= 1
    ensures RunningOk(Transmitted(s, x), k, src)
  {
    hide Count, GoodReq, GoodRes, FindTransfer, Attrs;
    var s' := Transmitted(s, x);
    var m := s.peers[x].queue[0];
    StampedSame(m, x, k);
    assert m in s.peers[x].queue;
    assert forall y <- s'.peers[x].queue :: y in s.peers[x].queue;
    CountTail(s.peers[x].queue, ReqQ(k));
    CountAppend(s.flight, m.(src := x), ReqF(k));
    hide Picks;
    var offset := Entry(s.peers[k.q], k.p, k.oid).offset;
    GoodStamped(m, x, k.oid, offset, src);
  }

  lemma StampedSame(m: Msg, x: u64, k: Key)
    ensures Picks(ReqF(k), m.(src := x)) <==> k.q == x && Picks(ReqQ(k), m)
    ensures Picks(ResF(k), m.(src := x)) <==> k.p == x && Picks(ResQ(k), m)
    ensures One(m.(src := x), ReqF(k)) == if k.q == x then One(m, ReqQ(k)) else 0
  {
    hide Attrs, OidOf;
    StampKeepsOid(m, x);
  }

  lemma GoodStamped(m: Msg, x: u64, oid: u64, offset: nat, src: Content)
    ensures GoodReq(m.(src := x), oid, offset, src) == GoodReq(m, oid, offset, src)
    ensures GoodRes(m.(src := x), oid, offset, src) == GoodRes(m, oid, offset, src)
  {
    StampKeepsOid(m, x);
    hide Attrs, Piece;
  }

  lemma TransmitKeeps(s: Net, x: u64)
    requires Inv(s) && x in s.peers && s.peers[x].queue != []
    ensures Inv(Transmitted(s, x))
  {
    hide Outstanding, Owed, Pending, RunningOk, Count, FindTransfer;
    var s' := Transmitted(s, x);
    assert CountsOk(s') by {
      forall k: Key | k.q in s'.peers && k.p in s'.peers
        ensures Outstanding(s', k) == if k in s'.running then 1 else 0
      {
        TransmitCounts(s, x, k);
      }
    }
    assert OwedOk(s') by {
      forall q, p, t | q in s'.peers && p in s'.peers
        ensures Owed(s', q, p, t) <= Pending(s'.peers[q], p, t)
      {
        TransmitOwed(s, x, q, p, t);
      }
    }
    assert AllRunningOk(s') by {
      forall k <- s'.running
        ensures k.q in s'.peers && k.p in s'.peers && RunningOk(s', k, s'.running[k])
      {
        assert Outstanding(s, k) == 1;
        TransmitRunning(s, x, k, s.running[k]);
      }
    }
    TransmitApart(s, x);
  }

  lemma TransmitApart(s: Net, x: u64)
    requires Inv(s) && x in s.peers && s.peers[x].queue != []
    ensures AllApart(Transmitted(s, x)) && Tidy(Transmitted(s, x))
  {
    hide RunningOk, FindTransfer, CountsOk, OwedOk;
    var s' := Transmitted(s, x);
    forall k <- s'.running, k' <- s'.running
      ensures Apart(s', k, k')
    {
      SameNames(s, s', k);
      SameNames(s, s', k');
      assert Apart(s, k, k');
    }
  }

  lemma SameNames(s: Net, s': Net, k: Key)
    requires s'.peers.Keys == s.peers.Keys && forall q <- s.peers :: s'.peers[q].transfers == s.peers[q].transfers
    ensures FileNames(s', k) == FileNames(s, k) && OfferNames(s', k) == OfferNames(s, k)
  {
    hide FindTransfer;
  }

  // ----- steps that do not concern a download -----

  /** Nothing that matters to download `k` changes for the worse. */
  lemma RunningCarries(s: Net, s': Net, k: Key, src: Content)
    requires k.q in s.peers && k.p in s.peers && k.q in s'.peers && k.p in s'.peers && RunningOk(s, k, src)
    requires s'.peers[k.q].st == s.peers[k.q].st && s'.peers[k.p].st == s.peers[k.p].st
    requires Downloads(s'.peers[k.q], k.p, k.oid, src)
    requires Entry(s'.peers[k.q], k.p, k.oid).offset == Entry(s.peers[k.q], k.p, k.oid).offset
    requires forall m <- s'.peers[k.q].queue | Picks(ReqQ(k), m) :: m in s.peers[k.q].queue
    requires forall m <- s'.flight | Picks(ReqF(k), m) :: m in s.flight
    requires forall m <- s'.peers[k.p].queue | Picks(ResQ(k), m) :: m in s.peers[k.p].queue
    requires forall m <- s'.flight | Picks(ResF(k), m) :: m in s.flight
    requires Count(s'.peers[k.q].queue, ReqQ(k)) + Count(s'.flight, ReqF(k))
          <= Count(s.peers[k.q].queue, ReqQ(k)) + Count(s.flight, ReqF(k))
    requires Offers(s.peers[k.p], k.q, k.oid, src) ==> Offers(s'.peers[k.p], k.q, k.oid, src)
    ensures RunningOk(s', k, src)
  {
    hide Count, Picks, GoodReq, GoodRes, Downloads, Offers, FindTransfer;
  }

  lemma ChatDownload(c: Clt, c': Clt, rid: u64, oid: u64)
    requires SameEntry(c, c', Download, rid, oid) && c'.files == c.files
    ensures DownloadNames(c', rid, oid) == DownloadNames(c, rid, oid)
    ensures forall src | Downloads(c, rid, oid, src) ::
              Downloads(c', rid, oid, src) && Entry(c', rid, oid).offset == Entry(c, rid, oid).offset
  {
    hide FindTransfer;
  }

  lemma ChatOffer(c: Clt, c': Clt, rid: u64, oid: u64)
    requires SameEntry(c, c', Offer, rid, oid) && c'.files == c.files
    ensures forall src :: Offers(c, rid, oid, src) ==> Offers(c', rid, oid, src)
  {
    hide FindTransfer;
  }

  lemma ChatView(s: Net, x: u64, c': Clt, k: Key)
    requires x in s.peers && Chats(s, x, c') && k in s.running && k.q in s.peers && k.p in s.peers
    ensures var s' := s.(peers := s.peers[x := c']);
            && FileNames(s', k) == FileNames(s, k) && OfferNames(s', k) <= OfferNames(s, k)
            && (RunningOk(s, k, s.running[k]) ==> RunningOk(s', k, s.running[k]))
  {
    hide FindTransfer, Matches, Count, GoodReq, GoodRes, Pending, SameEntry, Downloads, DownloadNames, Offers;
    hide OfferedNames;
    var s' := s.(peers := s.peers[x := c']);
    var c := s.peers[x];
    if k.q == x { ChatDownload(c, c', k.p, k.oid); }
    if k.p == x { ChatOffer(c, c', k.q, k.oid); }
    if RunningOk(s, k, s.running[k]) {
      assert Downloads(s.peers[k.q], k.p, k.oid, s.running[k]);
      ChatQueue(s, x, c', k);
      RunningCarries(s, s', k, s.running[k]);
    }
  }

  lemma ChatQueue(s: Net, x: u64, c': Clt, k: Key)
    requires x in s.peers && Chats(s, x, c')
    ensures forall m <- c'.queue | Picks(ReqQ(k), m) || Picks(ResQ(k), m) :: m in s.peers[x].queue
    ensures Count(c'.queue, ReqQ(k)) == Count(s.peers[x].queue, ReqQ(k))
    ensures Count(c'.queue, ResQ(k)) == Count(s.peers[x].queue, ResQ(k))
  {
    hide Count, Pending, OidOf;
    var c := s.peers[x];
    if c'.queue != c.queue {
      var m :| c'.queue == c.queue + [m] && !Core(m);
      CountAppend(c.queue, m, ReqQ(k));
      CountAppend(c.queue, m, ResQ(k));
    }
  }

  lemma ChatOwed(s: Net, x: u64, c': Clt, q: u64, p: u64, t: u64)
    requires x in s.peers && Chats(s, x, c') && q in s.peers && p in s.peers
    ensures var s' := s.(peers := s.peers[x := c']);
            Owed(s', q, p, t) == Owed(s, q, p, t) && Pending(s'.peers[q], p, t) == Pending(s.peers[q], p, t)
  {
    hide Count, OidOf;
    var c := s.peers[x];
    assert Pending(c', p, t) == Pending(c, p, t);
    if c'.queue != c.queue {
      var m :| c'.queue == c.queue + [m] && !Core(m);
      CountAppend(c.queue, m, Sel(GETFILE_RES, None, q, None, Some(t)));
    }
  }

  lemma ChatKeeps(s: Net, x: u64, c': Clt)
    requires Inv(s) && x in s.peers && Chats(s, x, c')
    ensures Inv(s.(peers := s.peers[x := c']))
  {
    hide Chats, Outstanding, Owed, Pending, RunningOk, Count, FileNames, OfferNames;
    var s' := s.(peers := s.peers[x := c']);
    assert CountsOk(s') by {
      forall k: Key | k.q in s'.peers && k.p in s'.peers
        ensures Outstanding(s', k) == if k in s'.running then 1 else 0
      {
        ChatOutstanding(s, x, c', k);
      }
    }
    assert OwedOk(s') by {
      forall q, p, t | q in s'.peers && p in s'.peers
        ensures Owed(s', q, p, t) <= Pending(s'.peers[q], p, t)
      {
        ChatOwed(s, x, c', q, p, t);
      }
    }
    forall k <- s.running
      ensures k.q in s'.peers && k.p in s'.peers && RunningOk(s', k, s.running[k])
      ensures FileNames(s', k) == FileNames(s, k) && OfferNames(s', k) <= OfferNames(s, k)
    {
      ChatView(s, x, c', k);
    }
    ApartCarries(s, s');
    ChatTidy(s, x, c');
  }

  lemma ChatOutstanding(s: Net, x: u64, c': Clt, k: Key)
    requires x in s.peers && Chats(s, x, c') && k.q in s.peers && k.p in s.peers
    ensures Outstanding(s.(peers := s.peers[x := c']), k) == Outstanding(s, k)
  {
    hide Count, Chats;
    ChatQueue(s, x, c', k);
  }

  lemma ChatTidy(s: Net, x: u64, c': Clt)
    requires Tidy(s) && x in s.peers && Chats(s, x, c')
    ensures Tidy(s.(peers := s.peers[x := c']))
  {
    hide Pending, Count;
  }

  lemma ApartCarries(s: Net, s': Net)
    requires AllApart(s) && s'.running.Keys <= s.running.Keys
    requires forall k <- s'.running :: FileNames(s', k) == FileNames(s, k) && OfferNames(s', k) <= OfferNames(s, k)
    ensures AllApart(s')
  {
    hide FileNames, OfferNames;
    forall k <- s'.running, k' <- s'.running
      ensures Apart(s', k, k')
    {
      assert Apart(s, k, k');
    }
  }
}
