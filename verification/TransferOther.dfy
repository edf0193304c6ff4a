/** Deliveries that concern no download, and all steps together. */
module TransferOther {
  import opened Bytes
  import opened Message
  import opened ClientSpec
  import opened TransferFacts
  import opened Transfers
  import opened TransferFrame
  import opened TransferServe
  import opened TransferTake
  import opened TransferSteps
  import opened TransferTurnover

  lemma FindCons(t: Transfer, l: seq<Transfer>, kind: Kind, rid: u64, oid: u64)
    requires !Matches(t, kind, rid, oid)
    ensures FindTransfer([t] + l, kind, rid, oid) == FindTransfer(l, kind, rid, oid) + 1
  {
    assert ([t] + l)[1..] == l;
  }

  /** A new entry for another key hides no entry. */
  lemma NewEntry(c: Clt, c': Clt, t: Transfer, kind: Kind, rid: u64, oid: u64)
    requires c'.transfers == [t] + c.transfers && t.kind == Download && !Matches(t, kind, rid, oid)
    ensures SameEntry(c, c', kind, rid, oid) && OfferedNames(c', rid, oid) <= OfferedNames(c, rid, oid)
  {
    FindCons(t, c.transfers, kind, rid, oid);
    hide FindTransfer;
    assert forall x <- c'.transfers :: x == t || x in c.transfers;
  }

  /** Nor does a new time of activity. */
  lemma ActiveEntry(c: Clt, c': Clt, k: nat, now: int, kind: Kind, rid: u64, oid: u64)
    requires k < |c.transfers| && c.transfers[k].tact > 0 && now > 0
    requires c'.transfers == c.transfers[k := c.transfers[k].(tact := now)]
    ensures SameEntry(c, c', kind, rid, oid) && OfferedNames(c', rid, oid) <= OfferedNames(c, rid, oid)
  {
    hide FindTransfer;
    var t := c.transfers[k].(tact := now);
    if Matches(c.transfers[k], kind, rid, oid) {
      FindAny(c.transfers, k, t, kind, rid, oid);
    } else {
      FindOther(c.transfers, k, t, kind, rid, oid);
    }
    ActiveNames(c, c', k, t, rid, oid);
    hide OfferedNames, Matches;
  }

  lemma ActiveNames(c: Clt, c': Clt, k: nat, t: Transfer, rid: u64, oid: u64)
    requires k < |c.transfers| && c'.transfers == c.transfers[k := t]
    requires t == c.transfers[k].(tact := t.tact) && c.transfers[k].tact > 0
    ensures OfferedNames(c', rid, oid) <= OfferedNames(c, rid, oid)
  {
    assert c.transfers[k] in c.transfers;
    assert forall x <- c'.transfers :: x == t || x in c.transfers;
  }

  lemma {:induction false} FindAny(l: seq<Transfer>, k: nat, t: Transfer, kind: Kind, rid: u64, oid: u64)
    requires k < |l| && Matches(l[k], kind, rid, oid) && Matches(t, kind, rid, oid)
    ensures FindTransfer(l[k := t], kind, rid, oid) == FindTransfer(l, kind, rid, oid)
  {
    if k > 0 {
      assert l[k := t][1..] == l[1..][k - 1 := t] && l[k := t][0] == l[0];
      FindAny(l[1..], k - 1, t, kind, rid, oid);
    }
  }

  lemma {:induction false} ReadOfferKeeps(d: Transfer, l: seq<Attr>)
    ensures var r := ReadOffer(d, l); r.kind == d.kind && r.rid == d.rid && r.tact == d.tact
    decreases |l|
  {
    if l != [] {
      var a := l[0];
      var d' := if a.t == OFFERID then d.(oid := U64Of(a.val))
                else if a.t == FILENAME then d.(name := Some(CStr(a.val)), part := Some(CStr(a.val) + PART))
                else if a.t == SIZE then d.(size := U64Of(a.val))
                else d;
      ReadOfferKeeps(d', l[1..]);
    }
  }

  // ----- what each message does to the client -----

  /** The entries of a key are as before. */
  ghost predicate Leaves(c: Clt, c': Clt, kind: Kind, rid: u64, oid: u64) {
    SameEntry(c, c', kind, rid, oid) && (kind == Offer ==> OfferedNames(c', rid, oid) <= OfferedNames(c, rid, oid))
  }

  lemma LeavesSame(c: Clt, c': Clt, kind: Kind, rid: u64, oid: u64)
    requires c'.transfers == c.transfers
    ensures Leaves(c, c', kind, rid, oid)
  {
    hide FindTransfer;
  }

  lemma OfferChats(c: Clt, m: Msg, env: Env, kind: Kind, rid: u64, oid: u64)
    requires m.mtype == OFFER_REQ && env.Ok()
    requires (kind, rid, oid) != (Download, m.src, NewDownload(m, env).oid)
    ensures Leaves(c, OnOffer(c, m, env).0, kind, rid, oid)
  {
    hide ReadOffer, Attrs, FindTransfer;
    ReadOfferKeeps(Transfer(Download, m.src, 0, None, None, 0, 0, None, env.now), Attrs(m));
    var c' := OnOffer(c, m, env).0;
    if c.st.AuthOk? {
      NewEntry(c, c', c'.transfers[0], kind, rid, oid);
    } else {
      LeavesSame(c, c', kind, rid, oid);
    }
  }

  lemma OfferResChats(c: Clt, m: Msg, env: Env, kind: Kind, rid: u64, oid: u64)
    requires env.Ok()
    ensures Leaves(c, OnOfferRes(c, m, env).0, kind, rid, oid)
  {
    hide Attrs, FindTransfer;
    var c' := OnOfferRes(c, m, env).0;
    if c' == c {
      LeavesSame(c, c', kind, rid, oid);
    } else {
      ActiveEntry(c, c', FindTransfer(c.transfers, Offer, m.src, U64Of(Attrs(m)[0].val)), env.now, kind, rid, oid);
    }
  }

  predicate Other(m: Msg) {
    m.mtype !in {LOGIN_RES, AUTH_RES, AUTH_ERR, LOGOUT_RES, GETFILE_REQ, GETFILE_RES}
  }

  lemma HandleLeaves(c: Clt, m: Msg, env: Env, kind: Kind, rid: u64, oid: u64)
    requires Other(m) && env.Ok()
    requires m.mtype == OFFER_REQ ==> (kind, rid, oid) != (Download, m.src, NewDownload(m, env).oid)
    ensures Leaves(c, Handle(c, m, env).0, kind, rid, oid)
  {
    hide OnOffer, OnOfferRes, NewDownload, Leaves, OnGetFile, OnFileData, OnLoginRes, OnLogoutRes, OnAuthRes, OnAuthErr;
    if m.mtype == OFFER_REQ {
      OfferChats(c, m, env, kind, rid, oid);
    } else if m.mtype == OFFER_RES {
      OfferResChats(c, m, env, kind, rid, oid);
    } else {
      LeavesSame(c, Handle(c, m, env).0, kind, rid, oid);
    }
  }

  lemma HandleQuiet(c: Clt, m: Msg, env: Env)
    requires Other(m)
    ensures var (c', reply) := Handle(c, m, env);
            && c'.st == c.st && c'.files == c.files && c'.queue == c.queue && c'.pending == c.pending
            && c'.dead == c.dead
            && (reply.Some? ==> reply.value.mtype !in {GETFILE_REQ, GETFILE_RES})
  {
    hide OnGetFile, OnFileData, OnLoginRes, OnLogoutRes, OnAuthRes, OnAuthErr, Attrs, EncAttr, FindTransfer;
    hide ReadOffer, NewDownload;
  }

  /** A response about no download answers no GETFILE request. */
  lemma OtherPending(c: Clt, m: Msg, p: u64, t: u64)
    requires m.mtype != GETFILE_RES && IsRes(m.mtype) && FindPending(c.pending, m) < |c.pending|
    ensures var c1 := c.(pending := Without(c.pending, FindPending(c.pending, m)));
            Pending(c1, p, t) == Pending(c, p, t) && forall x <- c1.pending :: x in c.pending
  {
    var j := FindPending(c.pending, m);
    hide Count, OidOf, FindPending, Class, Family;
    CountWithout(c.pending, j, Sel(GETFILE_REQ, None, p, None, Some(t)));
    NoGetFile(c.pending[j], m);
    WithoutMembers(c.pending, j);
    hide ToRes, IsRes, Without;
  }

  lemma NoGetFile(q: Msg, m: Msg)
    requires m.mtype != GETFILE_RES && Answered(q, m)
    ensures q.mtype != GETFILE_REQ
  {
    assert ToRes(GETFILE_REQ) == GETFILE_RES;
  }

  lemma WithoutMembers(l: seq<Msg>, n: nat)
    requires n < |l|
    ensures forall x <- Without(l, n) :: x in l
  {}

  lemma OtherChats(s: Net, m: Msg, env: Env)
    requires Other(m) && Honest(s, m, env) && env.Ok() && m.dst in s.peers && Tidy(s)
    ensures Chats(s, m.dst, ProcessSrvMsg(s.peers[m.dst], m, env))
  {
    assert m.mtype != GETFILE_RES;
    hide Handle, FindPending, Pending, NewDownload, FindTransfer, Other, Leaves, Closed, IsRes;
    var c := s.peers[m.dst];
    var j := FindPending(c.pending, m);
    var c1 := if IsRes(m.mtype) && j < |c.pending| then c.(pending := Without(c.pending, j)) else c;
    var c' := ProcessSrvMsg(c, m, env);
    if IsRes(m.mtype) && j < |c.pending| {
      forall p, t
        ensures Pending(c1, p, t) == Pending(c, p, t)
      {
        OtherPending(c, m, p, t);
      }
    }
    assert forall x <- c1.pending :: x in c.pending;
    if IsRes(m.mtype) && j == |c.pending| {
      SameChats(s, m.dst);
    } else {
      HandleQuiet(c1, m, env);
      ProcessPending(c1, c', m, env);
      forall k <- s.running
        ensures k.q == m.dst ==> SameEntry(c, c', Download, k.p, k.oid)
        ensures k.p == m.dst
                ==> SameEntry(c, c', Offer, k.q, k.oid) && OfferedNames(c', k.q, k.oid) <= OfferedNames(c, k.q, k.oid)
      {
        if k.q == m.dst {
          HandleLeaves(c1, m, env, Download, k.p, k.oid);
          LeavesTransfers(c, c1, Handle(c1, m, env).0, c', Download, k.p, k.oid);
        }
        if k.p == m.dst {
          HandleLeaves(c1, m, env, Offer, k.q, k.oid);
          LeavesTransfers(c, c1, Handle(c1, m, env).0, c', Offer, k.q, k.oid);
        }
      }
    }
  }

  lemma ProcessPending(c1: Clt, c': Clt, m: Msg, env: Env)
    requires c' == Queued(Handle(c1, m, env).0, Handle(c1, m, env).1) && Handle(c1, m, env).0.pending == c1.pending
    ensures forall p, t :: Pending(c', p, t) == Pending(c1, p, t)
  {
    hide Handle, Count;
  }

  lemma LeavesTransfers(c: Clt, c1: Clt, h: Clt, c': Clt, kind: Kind, rid: u64, oid: u64)
    requires Leaves(c1, h, kind, rid, oid) && c1.transfers == c.transfers && c'.transfers == h.transfers
    ensures SameEntry(c, c', kind, rid, oid)
    ensures (kind == Offer ==> OfferedNames(c', rid, oid) <= OfferedNames(c, rid, oid))
  {
    hide FindTransfer;
  }

  lemma SameChats(s: Net, q: u64)
    requires q in s.peers && Tidy(s)
    ensures Chats(s, q, s.peers[q])
  {
    hide FindTransfer, Pending;
  }

  // ----- all steps -----

  lemma DropKeeps(s: Net, n: nat)
    requires Inv(s) && n < |s.flight| && s.flight[n].mtype !in {GETFILE_REQ, GETFILE_RES}
    ensures Inv(s.(flight := Without(s.flight, n)))
  {
    hide Count, OidOf, RunningOk, FileNames, OfferNames, Pending;
    var s' := s.(flight := Without(s.flight, n));
    forall k: Key | k.q in s'.peers && k.p in s'.peers
      ensures Outstanding(s', k) == if k in s'.running then 1 else 0
    {
      CountWithout(s.flight, n, ReqF(k));
      CountWithout(s.flight, n, ResF(k));
    }
    forall q, p, t | q in s'.peers && p in s'.peers
      ensures Owed(s', q, p, t) <= Pending(s'.peers[q], p, t)
    {
      CountWithout(s.flight, n, Sel(GETFILE_REQ, Some(q), p, None, Some(t)));
      CountWithout(s.flight, n, Sel(GETFILE_RES, Some(p), q, None, Some(t)));
    }
    forall k <- s.running
      ensures RunningOk(s', k, s.running[k]) && FileNames(s', k) == FileNames(s, k)
      ensures OfferNames(s', k) == OfferNames(s, k)
    {
      DropRunning(s, n, k);
    }
    ApartCarries(s, s');
  }

  lemma DropRunning(s: Net, n: nat, k: Key)
    requires n < |s.flight| && k in s.running && k.q in s.peers && k.p in s.peers && RunningOk(s, k, s.running[k])
    ensures var s' := s.(flight := Without(s.flight, n));
            && RunningOk(s', k, s.running[k])
            && FileNames(s', k) == FileNames(s, k) && OfferNames(s', k) == OfferNames(s, k)
  {
    hide Count, FindTransfer, Picks, GoodReq, GoodRes, DownloadNames, OfferedNames, Offers;
    CountWithout(s.flight, n, ReqF(k));
    RunningCarries(s, s.(flight := Without(s.flight, n)), k, s.running[k]);
  }

  lemma OtherKeeps(s: Net, n: nat, env: Env)
    requires Inv(s) && n < |s.flight| && s.flight[n].dst in s.peers && Other(s.flight[n])
    requires Honest(s, s.flight[n], env) && env.Ok()
    ensures Inv(Delivered(s, n, env))
  {
    var m := s.flight[n];
    OtherChats(s, m, env);
    hide Inv, Chats, Honest, ProcessSrvMsg;
    ChatKeeps(s, m.dst, ProcessSrvMsg(s.peers[m.dst], m, env));
    DropKeeps(s.(peers := s.peers[m.dst := ProcessSrvMsg(s.peers[m.dst], m, env)]), n);
  }

  /** Every step of any client or of the relay keeps the invariant. */
  lemma StepKeeps(s: Net, a: Act, s': Net)
    requires Inv(s) && Step(s, a, s')
    ensures Inv(s')
  {
    hide Inv, Chats, Turns, Honest, CanAccept, Transmitted, Delivered, Accepted;
    match a
    case Transmit(p) => TransmitKeeps(s, p);
    case Accept(k, src, env) => AcceptKeeps(s, k, src, env);
    case Chat(q, c) => ChatKeeps(s, q, c);
    case Turnover(peers) => TurnoverKeeps(s, peers);
    case Deliver(n, env) =>
      if s.flight[n].mtype == GETFILE_REQ { ServeKeeps(s, n, env); }
      else if s.flight[n].mtype == GETFILE_RES { TakeKeeps(s, n, env); }
      else { NotLogin(s, s.flight[n], env); OtherKeeps(s, n, env); }
  }

  lemma NotLogin(s: Net, m: Msg, env: Env)
    requires Honest(s, m, env) && m.mtype !in {GETFILE_REQ, GETFILE_RES}
    ensures Other(m)
  {}
}
