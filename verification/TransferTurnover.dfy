/** Clients that come and go disturb no download of the others. */
module TransferTurnover {
  import opened Bytes
  import opened Message
  import opened ClientSpec
  import opened TransferFacts
  import opened Transfers
  import opened TransferFrame

  lemma {:induction false} NotPicked(l: seq<Msg>, x: Sel)
    requires forall m <- l :: !Picks(x, m)
    ensures Count(l, x) == 0
  {
    hide Picks;
    if l != [] {
      NotPicked(l[..|l| - 1], x);
      assert l[|l| - 1] in l;
    }
  }

  /** No message of a download between the two is queued or in flight. */
  ghost predicate Strangers(s: Net, q: u64, p: u64) {
    && (forall m <- s.flight | Core(m) :: !(m.src == q && m.dst == p))
    && (q in s.peers ==> forall m <- s.peers[q].queue | Core(m) :: m.dst != p)
  }

  lemma PicksOwn(m: Msg, q: u64, p: u64)
    ensures m.mtype == GETFILE_REQ && m.dst == p ==> Picks(ReqQ(Key(q, p, OidOf(m))), m)
    ensures m.mtype == GETFILE_RES && m.dst == q ==> Picks(ResQ(Key(q, p, OidOf(m))), m)
    ensures m.mtype == GETFILE_REQ && m.dst == p && m.src == q ==> Picks(ReqF(Key(q, p, OidOf(m))), m)
    ensures m.mtype == GETFILE_RES && m.dst == q && m.src == p ==> Picks(ResF(Key(q, p, OidOf(m))), m)
  {
    hide OidOf;
  }

  /** Between clients without a download of each other nothing of one is on its way. */
  lemma NoneBetween(s: Net, q: u64, p: u64)
    requires CountsOk(s) && q in s.peers && p in s.peers && !Involved(s, p)
    ensures Strangers(s, q, p) && Strangers(s, p, q)
  {
    hide Count, OidOf, Picks;
    forall m | Core(m) && (m in s.flight || m in s.peers[q].queue || m in s.peers[p].queue)
      ensures m in s.flight ==> !(m.src == q && m.dst == p) && !(m.src == p && m.dst == q)
      ensures m in s.peers[q].queue ==> m.dst != p
      ensures m in s.peers[p].queue ==> m.dst != q
    {
      var a, b := Key(q, p, OidOf(m)), Key(p, q, OidOf(m));
      assert a !in s.running && b !in s.running;
      NothingOf(s, a);
      NothingOf(s, b);
      PicksOwn(m, q, p);
      PicksOwn(m, p, q);
    }
  }

  lemma NothingOf(s: Net, k: Key)
    requires CountsOk(s) && k.q in s.peers && k.p in s.peers && k !in s.running
    ensures forall m <- s.peers[k.q].queue :: !Picks(ReqQ(k), m)
    ensures forall m <- s.peers[k.p].queue :: !Picks(ResQ(k), m)
    ensures forall m <- s.flight :: !Picks(ReqF(k), m) && !Picks(ResF(k), m)
  {
    hide Count, Picks;
    assert Outstanding(s, k) == 0;
    CountZero(s.peers[k.q].queue, ReqQ(k));
    CountZero(s.peers[k.p].queue, ResQ(k));
    CountZero(s.flight, ReqF(k));
    CountZero(s.flight, ResF(k));
  }

  /** A client that is not there has no message of a download on its way to it or from it. */
  lemma NoneAbsent(s: Net, q: u64, p: u64)
    requires Closed(s) && p !in s.peers
    ensures Strangers(s, q, p) && (forall m <- s.flight | Core(m) :: m.src != p)
  {}

  /** After the turnover: the clients that stayed are as before, the others are newcomers. */
  predicate Stayed(s: Net, s': Net, q: u64) { q in s.peers && q in s'.peers && s'.peers[q] == s.peers[q] }

  lemma TurnStrangers(s: Net, s': Net, q: u64, p: u64)
    requires CountsOk(s) && Closed(s) && Turns(s, s'.peers) && s'.flight == s.flight && s'.running == s.running
    requires q in s'.peers && p in s'.peers && !(Stayed(s, s', q) && Stayed(s, s', p))
    ensures Strangers(s', q, p)
  {
    hide CountsOk;
    if q in s.peers && p in s.peers {
      if !Stayed(s, s', p) {
        NoneBetween(s, q, p);
      } else {
        NoneBetween(s, p, q);
      }
    } else if p !in s.peers {
      NoneAbsent(s, q, p);
    } else {
      NoneAbsent(s, p, q);
    }
  }

  lemma StrangersCount(s: Net, q: u64, p: u64, x: Sel)
    requires Strangers(s, q, p) && x.mtype in {GETFILE_REQ, GETFILE_RES} && x.dst == p
    ensures x.src == Some(q) ==> Count(s.flight, x) == 0
    ensures q in s.peers ==> Count(s.peers[q].queue, x) == 0
  {
    hide Count, OidOf;
    if x.src == Some(q) { NotPicked(s.flight, x); }
    if q in s.peers { NotPicked(s.peers[q].queue, x); }
  }

  lemma TurnCounts(s: Net, s': Net, k: Key)
    requires CountsOk(s) && Closed(s) && Turns(s, s'.peers) && s'.flight == s.flight && s'.running == s.running
    requires k.q in s'.peers && k.p in s'.peers && (k in s.running ==> k.q in s.peers && k.p in s.peers)
    ensures Outstanding(s', k) == if k in s'.running then 1 else 0
  {
    hide Count, Turns, Closed;
    if Stayed(s, s', k.q) && Stayed(s, s', k.p) {
      assert Outstanding(s', k) == Outstanding(s, k);
    } else {
      InvolvedStay(s, s', k);
      TurnStrangers(s, s', k.q, k.p);
      TurnStrangers(s, s', k.p, k.q);
      StrangersCount(s', k.q, k.p, ReqQ(k));
      StrangersCount(s', k.q, k.p, ReqF(k));
      StrangersCount(s', k.p, k.q, ResQ(k));
      StrangersCount(s', k.p, k.q, ResF(k));
    }
  }

  lemma InvolvedStay(s: Net, s': Net, k: Key)
    requires Turns(s, s'.peers)
    ensures k in s.running && k.q in s.peers && k.p in s.peers ==> Stayed(s, s', k.q) && Stayed(s, s', k.p)
  {
    if k in s.running { assert Involved(s, k.q) && Involved(s, k.p); }
  }

  lemma TurnOwed(s: Net, s': Net, q: u64, p: u64, t: u64)
    requires CountsOk(s) && Closed(s) && Turns(s, s'.peers) && s'.flight == s.flight && s'.running == s.running
    requires OwedOk(s) && q in s'.peers && p in s'.peers
    ensures Owed(s', q, p, t) <= Pending(s'.peers[q], p, t)
  {
    hide Count, Turns, Closed, CountsOk;
    if Stayed(s, s', q) && Stayed(s, s', p) {
      assert Owed(s, q, p, t) <= Pending(s.peers[q], p, t);
    } else {
      TurnStrangers(s, s', q, p);
      TurnStrangers(s, s', p, q);
      StrangersCount(s', q, p, Sel(GETFILE_REQ, Some(q), p, None, Some(t)));
      StrangersCount(s', p, q, Sel(GETFILE_RES, None, q, None, Some(t)));
      StrangersCount(s', p, q, Sel(GETFILE_RES, Some(p), q, None, Some(t)));
    }
  }

  lemma TurnRunning(s: Net, s': Net, k: Key)
    requires Turns(s, s'.peers) && s'.flight == s.flight && s'.running == s.running
    requires k in s.running && k.q in s.peers && k.p in s.peers && RunningOk(s, k, s.running[k])
    ensures k.q in s'.peers && k.p in s'.peers && RunningOk(s', k, s'.running[k])
    ensures FileNames(s', k) == FileNames(s, k) && OfferNames(s', k) <= OfferNames(s, k)
  {
    InvolvedStay(s, s', k);
    hide Turns, Count, FindTransfer, Downloads, Offers, GoodReq, GoodRes, Picks, DownloadNames, OfferedNames;
  }

  lemma TurnTidy(s: Net, s': Net)
    requires CountsOk(s) && AllRunningOk(s) && Tidy(s) && Turns(s, s'.peers)
    requires s'.flight == s.flight && s'.running == s.running
    ensures Tidy(s')
  {
    hide CountsOk, RunningOk;
    forall m <- s'.flight | Core(m)
      ensures m.src in s'.peers && m.dst in s'.peers
    {
      if m.src !in s'.peers || m.dst !in s'.peers {
        var p := if m.src !in s'.peers then m.src else m.dst;
        NoneBetween(s, if p == m.src then m.dst else m.src, p);
        assert false;
      }
    }
    forall q <- s'.peers, m <- s'.peers[q].queue | Core(m)
      ensures m.dst in s'.peers
    {
      if m.dst !in s'.peers {
        NoneBetween(s, q, m.dst);
        assert false;
      }
    }
  }

  lemma TurnoverKeeps(s: Net, peers: map<u64, Clt>)
    requires Inv(s) && Turns(s, peers)
    ensures Inv(s.(peers := peers))
  {
    hide Turns, Outstanding, Owed, Pending, RunningOk, FileNames, OfferNames;
    var s' := s.(peers := peers);
    assert CountsOk(s') by {
      forall k: Key | k.q in s'.peers && k.p in s'.peers
        ensures Outstanding(s', k) == if k in s'.running then 1 else 0
      {
        TurnCounts(s, s', k);
      }
    }
    assert OwedOk(s') by {
      forall q, p, t | q in s'.peers && p in s'.peers
        ensures Owed(s', q, p, t) <= Pending(s'.peers[q], p, t)
      {
        TurnOwed(s, s', q, p, t);
      }
    }
    forall k <- s.running
      ensures k.q in s'.peers && k.p in s'.peers && RunningOk(s', k, s.running[k])
      ensures FileNames(s', k) == FileNames(s, k) && OfferNames(s', k) <= OfferNames(s, k)
    {
      TurnRunning(s, s', k);
    }
    ApartCarries(s, s');
    TurnTidy(s, s');
  }
}
