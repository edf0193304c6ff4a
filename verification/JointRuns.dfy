/** Every step of clients and server together is a step of the transfers, or none. */
module JointRuns {
  import opened Bytes
  import opened Message
  import opened Channel
  import opened UserDb
  import opened ServerSpec
  import opened ServerInv
  import opened ServerIds
  import opened ServerPeers
  import opened ServerRuns
  import opened ServerAuth
  import opened Joint
  import opened JointServer
  import C = ClientSpec
  import F = TransferFacts
  import T = Transfers
  import O = TransferOther
  import R = TransferRuns

  // ----- the two views -----

  /** The simulation, with what server and transfers keep. */
  ghost predicate Good(w: World, n: T.Net, lfd: int) { WInv(w, lfd) && Sim(w, n) && T.Inv(n) }

  lemma ViewChats(n: T.Net, q: u64, c: C.Clt)
    requires q in n.peers
    ensures T.Chats(n.(flight := []), q, c) <==> T.Chats(n, q, c)
  {
    hide T.SameEntry, F.OfferedNames, T.Pending;
  }

  lemma ViewAccept(n: T.Net, k: T.Key, src: seq<byte>)
    requires T.CanAccept(n.(flight := []), k, src)
    ensures T.CanAccept(n, k, src)
  {
    hide F.DownloadNames, F.OfferedNames, F.Offers, T.Acceptable, C.FindTransfer;
    var v := n.(flight := []);
    forall k'
      ensures T.FileNames(v, k') == T.FileNames(n, k') && T.OfferNames(v, k') == T.OfferNames(n, k')
    {}
    hide T.FileNames, T.OfferNames;
    forall k', k''
      ensures T.Apart(v, k', k'') <==> T.Apart(n, k', k'')
    {}
  }

  // ----- a step of one client -----

  /** One client changes; what is on its way changes no more than the bag. */
  ghost predicate Shifts(x: End, e: End, n: T.Net, n': T.Net) {
    && e.id == x.id && e.fd == x.fd && AllFine(e.id, e.down) && n'.peers == n.peers[e.id := e.clt]
    && forall m | T.Core(m) :: EndCount(e, m) + Occ(n.flight, m) <= EndCount(x, m) + Occ(n'.flight, m)
  }

  lemma ShiftCounts(w: World, n: T.Net, i: nat, e: End, n': T.Net, w': World)
    requires Sim(w, n) && i < |w.ends| && Shifts(w.ends[i], e, n, n')
    requires w'.srv == w.srv && w'.ends == w.ends[i := e]
    ensures forall m | T.Core(m) :: Total(w', m) <= Occ(n'.flight, m)
  {
    hide EndCount, SlotsTotal, EndsTotal, T.Core, Occ, Clients, AllFine;
    forall m | T.Core(m)
      ensures Total(w', m) <= Occ(n'.flight, m)
    {
      EndsUpdate(w.ends, i, e, m);
    }
  }

  lemma ShiftInv(w: World, n: T.Net, i: nat, e: End, n': T.Net, w': World, lfd: int)
    requires WInv(w, lfd) && i < |w.ends| && Shifts(w.ends[i], e, n, n')
    requires w'.srv == w.srv && w'.ends == w.ends[i := e]
    ensures WInv(w', lfd) && Clients(w'.ends) == Clients(w.ends)[e.id := e.clt]
  {
    ClientUpdate(w.ends, i, e);
    LinksUpdate(w.ends, i, e);
    hide FdInv, PeerInv, FineSlots, PeerFds, AllFine, Clients, Links, EndCount, T.Core, DistinctIds;
    FineUpdate(w.ends, i, e);
  }

  lemma FineUpdate(l: seq<End>, i: nat, e: End)
    requires FineEnds(l) && i < |l| && AllFine(e.id, e.down)
    ensures FineEnds(l[i := e])
  {
    hide AllFine;
  }

  lemma ShiftGood(w: World, n: T.Net, i: nat, e: End, n': T.Net, w': World, lfd: int)
    requires Good(w, n, lfd) && i < |w.ends| && Shifts(w.ends[i], e, n, n') && T.Inv(n')
    requires w'.srv == w.srv && w'.ends == w.ends[i := e] && n'.running == w'.running
    ensures Good(w', n', lfd)
  {
    ShiftCounts(w, n, i, e, n', w');
    ShiftInv(w, n, i, e, n', w', lfd);
    hide T.Inv, WInv, Total, T.Core, Occ, Clients, EndCount, AllFine;
  }

  /** Client `i` as the transfers see it. */
  lemma Known(w: World, n: T.Net, i: nat, lfd: int)
    requires Good(w, n, lfd) && i < |w.ends|
    ensures w.ends[i].id in n.peers && n.peers[w.ends[i].id] == w.ends[i].clt && n.running == w.running
    ensures AllFine(w.ends[i].id, w.ends[i].down)
    ensures View(w) == n.(flight := [])
  {
    ClientAt(w.ends, i);
    hide T.Inv, FdInv, PeerInv, FineSlots, Linked, Total, T.Core, Occ, Clients, AllFine, DistinctIds;
    assert w.ends[i] in w.ends;
  }

  lemma SendShifts(e: End, n: T.Net)
    requires e.id in n.peers && n.peers[e.id] == e.clt && e.clt.queue != []
    requires AllFine(e.id, e.down)
    ensures Shifts(e, e.(clt := C.Dequeue(e.clt), up := e.up + [e.clt.queue[0]]), n, T.Transmitted(n, e.id))
  {
    hide T.Core, AllFine, Occ, Stamped;
    var m := e.clt.queue[0];
    forall x
      ensures Occ(Stamped(e.up + [m], e.id), x) == Occ(Stamped(e.up, e.id), x) + Is(x, m.(src := e.id))
      ensures Occ(n.flight + [m.(src := e.id)], x) == Occ(n.flight, x) + Is(x, m.(src := e.id))
    {
      StampedLast(e.up, e.id, m, x);
      OccLast(n.flight, m.(src := e.id), x);
    }
    hide Is;
  }

  lemma SendSim(w: World, n: T.Net, i: nat, lfd: int, w': World) returns (n': T.Net)
    requires Good(w, n, lfd) && JSend(w, i, w')
    ensures Good(w', n', lfd) && T.Step(n, T.Transmit(w.ends[i].id), n')
  {
    Known(w, n, i, lfd);
    var e := w.ends[i];
    SendShifts(e, n);
    hide Shifts, Good, T.Inv;
    n' := T.Transmitted(n, e.id);
    assert Good(w, n, lfd) ==> T.Inv(n) by { GoodParts(w, n, lfd); }
    O.StepKeeps(n, T.Transmit(e.id), n');
    ShiftGood(w, n, i, e.(clt := C.Dequeue(e.clt), up := e.up + [e.clt.queue[0]]), n', w', lfd);
  }

  lemma GoodParts(w: World, n: T.Net, lfd: int)
    ensures Good(w, n, lfd) ==> T.Inv(n) && WInv(w, lfd)
  {}

  lemma FlightWithout(q: seq<Msg>, j: nat, x: Msg)
    requires j < |q|
    ensures Occ(q, x) == Occ(T.Without(q, j), x) + Is(x, q[j])
  {
    assert q == q[..j] + [q[j]] + q[j + 1..];
  }

  lemma InBag(w: World, n: T.Net, i: nat) returns (j: nat)
    requires Sim(w, n) && i < |w.ends| && w.ends[i].down != [] && T.Core(w.ends[i].down[0])
    ensures j < |n.flight| && n.flight[j] == w.ends[i].down[0]
  {
    var m := w.ends[i].down[0];
    OccHead(w.ends[i].down, m);
    var e0 := w.ends[i].(up := [], down := []);
    EndsUpdate(w.ends, i, e0, m);
    hide EndsTotal, SlotsTotal, T.Core, Clients;
    assert EndCount(w.ends[i], m) >= 1 && EndCount(e0, m) == 0;
    assert Occ(n.flight, m) >= 1;
    assert m in n.flight;
    j :| 0 <= j < |n.flight| && n.flight[j] == m;
  }

  lemma ReceiveShifts(e: End, n: T.Net, j: nat, env: C.Env)
    requires e.id in n.peers && n.peers[e.id] == e.clt && AllFine(e.id, e.down) && e.down != []
    requires j < |n.flight| && n.flight[j] == e.down[0] && T.Core(e.down[0])
    ensures e.down[0].dst == e.id
    ensures Shifts(e, e.(clt := C.ProcessSrvMsg(e.clt, e.down[0], env), down := e.down[1..]), n, T.Delivered(n, j, env))
  {
    assert Fine(e.id, e.down[0]) && e.down[0].mtype != LOGIN_RES;
    hide T.Core, Occ, Stamped, C.ProcessSrvMsg, T.Finishes, T.KeyOf, T.Without;
    forall x
      ensures Occ(e.down, x) == Occ(e.down[1..], x) + Is(x, e.down[0])
      ensures Occ(n.flight, x) == Occ(T.Without(n.flight, j), x) + Is(x, e.down[0])
    {
      OccHead(e.down, x);
      FlightWithout(n.flight, j, x);
    }
    hide Is, Fine;
  }

  lemma DeliverStep(n: T.Net, j: nat, env: C.Env)
    requires j < |n.flight| && n.flight[j].dst in n.peers && T.Core(n.flight[j]) && env.Ok() && env.HostOk()
    ensures T.Step(n, T.Deliver(j, env), T.Delivered(n, j, env))
  {
    hide T.Delivered, C.NewDownload;
  }

  lemma ReceiveCore(w: World, n: T.Net, i: nat, env: C.Env, lfd: int, w': World) returns (n': T.Net, j: nat)
    requires Good(w, n, lfd) && JReceive(w, i, env, w') && T.Core(w.ends[i].down[0])
    ensures Good(w', n', lfd) && T.Step(n, T.Deliver(j, env), n') && j < |n.flight| && n.flight[j] == w.ends[i].down[0]
  {
    Known(w, n, i, lfd);
    GoodParts(w, n, lfd);
    j := InBag(w, n, i);
    var e := w.ends[i];
    ReceiveShifts(e, n, j, env);
    DeliverStep(n, j, env);
    n' := T.Delivered(n, j, env);
    assert n'.running == w'.running;
    hide Shifts, Good, T.Inv, T.Step, T.Delivered, C.ProcessSrvMsg, AllFine, T.Core, T.Finishes, T.KeyOf, C.NewDownload;
    O.StepKeeps(n, T.Deliver(j, env), n');
    ShiftGood(w, n, i, e.(clt := C.ProcessSrvMsg(e.clt, e.down[0], env), down := e.down[1..]), n', w', lfd);
  }

  predicate OfLogin(m: Msg) { m.mtype in {LOGIN_RES, AUTH_RES, AUTH_ERR} }

  /** What an answer to LOGIN or AUTH does: it may change the login state, unless the client is logged in. */
  lemma LoginHandled(c: C.Clt, m: Msg, env: C.Env)
    requires OfLogin(m) && (m.mtype == LOGIN_RES ==> C.AttrAt(Attrs(m), 0, OK).Some?)
    ensures var (c', reply) := C.Handle(c, m, env);
            reply.None? && c' == c.(st := c'.st) && (c.st == AuthOk ==> c' == c)
  {
    hide Attrs, C.OnOffer, C.OnGetFile, C.OnOfferRes, C.OnFileData;
  }

  lemma LoginChats(n: T.Net, p: u64, m: Msg, env: C.Env)
    requires T.Tidy(n) && p in n.peers && OfLogin(m) && (m.mtype == LOGIN_RES ==> C.AttrAt(Attrs(m), 0, OK).Some?)
    requires T.Involved(n, p) ==> n.peers[p].st == AuthOk
    ensures T.Chats(n, p, C.ProcessSrvMsg(n.peers[p], m, env))
  {
    hide C.Handle, C.FindPending, T.Pending, T.Involved, T.Closed, Attrs, C.FindTransfer;
    var c := n.peers[p];
    var j := C.FindPending(c.pending, m);
    if IsRes(m.mtype) && j < |c.pending| {
      var c1 := c.(pending := T.Without(c.pending, j));
      LoginHandled(c1, m, env);
      forall q, t
        ensures T.Pending(C.ProcessSrvMsg(c, m, env), q, t) == T.Pending(c, q, t)
      {
        O.OtherPending(c, m, q, t);
        O.ProcessPending(c1, C.ProcessSrvMsg(c, m, env), m, env);
      }
      assert forall x <- c1.pending :: x in c.pending;
    } else if IsRes(m.mtype) {
      O.SameChats(n, p);
    } else {
      LoginHandled(c, m, env);
      O.ProcessPending(c, C.ProcessSrvMsg(c, m, env), m, env);
    }
  }

  lemma InvolvedIn(n: T.Net, p: u64)
    requires T.Inv(n) && p in n.peers
    ensures T.Involved(n, p) ==> n.peers[p].st == AuthOk
  {
    hide T.CountsOk, T.OwedOk, T.AllApart, F.Downloads, F.Offers, T.Count, T.Picks, T.GoodReq, T.GoodRes;
  }

  lemma TidyOf(n: T.Net)
    requires T.Inv(n)
    ensures T.Tidy(n)
  {}

  /** Any other message is nothing to a download. */
  lemma OtherChats(n: T.Net, p: u64, m: Msg, env: C.Env)
    requires T.Inv(n) && p in n.peers && Fine(p, m) && !T.Core(m) && env.Ok()
    requires m.mtype == OFFER_REQ ==> T.Key(m.dst, m.src, C.NewDownload(m, env).oid) !in n.running
    ensures T.Chats(n, p, C.ProcessSrvMsg(n.peers[p], m, env))
  {
    TidyOf(n);
    InvolvedIn(n, p);
    hide T.Chats, C.ProcessSrvMsg, T.Inv, T.Tidy, T.Involved, C.NewDownload, Attrs;
    if OfLogin(m) {
      LoginChats(n, p, m, env);
    } else {
      O.OtherChats(n, m, env);
    }
  }

  lemma ChatShifts(x: End, e: End, n: T.Net)
    requires x.id in n.peers && n.peers[x.id] == x.clt && T.Chats(n, x.id, e.clt)
    requires e.id == x.id && e.fd == x.fd && e.up == x.up && AllFine(e.id, e.down)
    requires (e.down == x.down || (x.down != [] && e.down == x.down[1..]))
    ensures Shifts(x, e, n, n.(peers := n.peers[e.id := e.clt]))
  {
    hide T.Chats, AllFine, T.Core, Occ, Stamped;
    forall m
      ensures Occ(e.down, m) <= Occ(x.down, m)
    {
      if e.down != x.down { OccHead(x.down, m); }
    }
  }

  lemma ChatSim(w: World, n: T.Net, i: nat, e: End, lfd: int, w': World) returns (n': T.Net)
    requires Good(w, n, lfd) && i < |w.ends| && e.id == w.ends[i].id && e.fd == w.ends[i].fd
    requires e.id in n.peers && T.Chats(n, e.id, e.clt)
    requires e.up == w.ends[i].up && AllFine(e.id, e.down)
    requires e.down == w.ends[i].down || (w.ends[i].down != [] && e.down == w.ends[i].down[1..])
    requires w' == w.(ends := w.ends[i := e])
    ensures Good(w', n', lfd) && T.Step(n, T.Chat(e.id, e.clt), n')
  {
    Known(w, n, i, lfd);
    GoodParts(w, n, lfd);
    ChatShifts(w.ends[i], e, n);
    hide T.Chats, AllFine, Good, T.Inv, Shifts;
    n' := n.(peers := n.peers[e.id := e.clt]);
    O.StepKeeps(n, T.Chat(e.id, e.clt), n');
    ShiftGood(w, n, i, e, n', w', lfd);
  }

  lemma NotFinishing(m: Msg)
    requires !T.Core(m)
    ensures !T.Finishes(m)
  {}

  lemma FineTail(p: u64, q: seq<Msg>)
    requires AllFine(p, q) && q != []
    ensures AllFine(p, q[1..]) && Fine(p, q[0])
  {
    hide Fine;
  }

  lemma ReceiveOther(w: World, n: T.Net, i: nat, env: C.Env, lfd: int, w': World) returns (n': T.Net)
    requires Good(w, n, lfd) && JReceive(w, i, env, w') && !T.Core(w.ends[i].down[0])
    ensures Good(w', n', lfd) && w'.running == w.running && i < |w'.ends|
    ensures T.Step(n, T.Chat(w.ends[i].id, w'.ends[i].clt), n')
  {
    Known(w, n, i, lfd);
    GoodParts(w, n, lfd);
    var e := w.ends[i];
    FineTail(e.id, e.down);
    OtherChats(n, e.id, e.down[0], env);
    NotFinishing(e.down[0]);
    hide T.Chats, C.ProcessSrvMsg, T.Step, T.Core, Good, AllFine, Fine, T.Inv, T.Finishes, C.NewDownload;
    n' := ChatSim(w, n, i, e.(clt := C.ProcessSrvMsg(e.clt, e.down[0], env), down := e.down[1..]), lfd, w');
  }

  lemma ChatAct(w: World, n: T.Net, a: Act, lfd: int, w': World) returns (n': T.Net)
    requires Good(w, n, lfd) && a.Chat? && JChat(w, a.i, a.c, w')
    ensures Good(w', n', lfd) && T.Step(n, T.Chat(w.ends[a.i].id, a.c), n')
  {
    Known(w, n, a.i, lfd);
    ViewChats(n, w.ends[a.i].id, a.c);
    hide T.Chats, T.Step, Good, AllFine, Clients;
    n' := ChatSim(w, n, a.i, w.ends[a.i].(clt := a.c), lfd, w');
  }

  lemma AcceptShifts(e: End, n: T.Net, k: T.Key, src: seq<byte>, env: C.Env)
    requires e.id in n.peers && n.peers[e.id] == e.clt && AllFine(e.id, e.down) && e.id == k.q
    ensures var (c', reply) := C.AcceptOffer(e.clt, k.p, k.oid, env);
            Shifts(e, e.(clt := C.Queued(c', reply)), n, T.Accepted(n, k, src, env))
  {
    hide C.AcceptOffer, AllFine, T.Core, Occ, Stamped;
  }

  lemma AcceptSim(w: World, n: T.Net, a: Act, lfd: int, w': World) returns (n': T.Net)
    requires Good(w, n, lfd) && a.Accept? && JAccept(w, a.i, a.k, a.src, a.env, w')
    ensures Good(w', n', lfd) && T.Step(n, T.Accept(a.k, a.src, a.env), n')
  {
    Known(w, n, a.i, lfd);
    GoodParts(w, n, lfd);
    hide T.CanAccept, C.AcceptOffer, Good, T.Inv, Clients, AllFine, Shifts, WInv;
    ViewAccept(n, a.k, a.src);
    AcceptShifts(w.ends[a.i], n, a.k, a.src, a.env);
    n' := T.Accepted(n, a.k, a.src, a.env);
    AcceptStep(n, a.k, a.src, a.env);
    hide T.Step, T.Accepted;
    O.StepKeeps(n, T.Accept(a.k, a.src, a.env), n');
    ShiftGood(w, n, a.i, w'.ends[a.i], n', w', lfd);
  }

  lemma AcceptStep(n: T.Net, k: T.Key, src: seq<byte>, env: C.Env)
    requires T.CanAccept(n, k, src) && env.Ok() && env.HostOk()
    ensures k.q in n.peers && T.Step(n, T.Accept(k, src, env), T.Accepted(n, k, src, env))
    ensures T.Accepted(n, k, src, env).running == n.running[k := src]
  {
    hide C.AcceptOffer, T.Acceptable, F.Offers, T.Apart, C.FindTransfer;
  }

  // ----- a step of the server -----

  lemma MovedEnds(w: World, i: nat, e: Event, l: seq<End>, cfg: Config)
    requires Moves(w, i, e, l, cfg) && DistinctIds(w.ends) && FineSlots(w.srv.c) && FineEnds(w.ends)
    ensures DistinctIds(l) && Clients(l) == Clients(w.ends) && FineEnds(l) && Links(l) == Links(w.ends)
    ensures forall m :: EndsTotal(l, m) + (if m in Taken(w.srv, e, cfg) then 1 else 0)
                        == EndsTotal(w.ends, m) + if m in Given(w.srv, e) then 1 else 0
  {
    hide Completed, Clients, EndsTotal, Links, Fine;
    if Takes(w.srv, e, cfg) || Gives(w.srv, e) {
      assert w.srv.c[e.i] in w.srv.c && w.ends[i] in w.ends;
      var y := l[i];
      assert l == w.ends[i := y];
      ClientUpdate(w.ends, i, y);
      ClientAt(w.ends, i);
      LinksUpdate(w.ends, i, y);
      FineUpdate(w.ends, i, y);
      forall m
        ensures EndsTotal(l, m) + (if m in Taken(w.srv, e, cfg) then 1 else 0)
                == EndsTotal(w.ends, m) + if m in Given(w.srv, e) then 1 else 0
      {
        EndsUpdate(w.ends, i, y, m);
        if Takes(w.srv, e, cfg) {
          StampedHead(w.ends[i].up, y.id, m);
        } else {
          OccLast(w.ends[i].down, w.srv.c[e.i].tx.q[0], m);
        }
      }
    }
  }

  lemma {:induction false} RemainingHas(l: seq<End>, c: seq<Client>, e: End)
    ensures e in Remaining(l, c) <==> e in l && Remains(e, c)
  {
    hide Remains;
    if l != [] {
      assert l == l[..|l| - 1] + [l[|l| - 1]];
      RemainingHas(l[..|l| - 1], c, e);
    }
  }

  lemma {:induction false} RemainingTotal(l: seq<End>, c: seq<Client>, m: Msg)
    ensures EndsTotal(Remaining(l, c), m) <= EndsTotal(l, m)
  {
    hide Remains, EndCount;
    if l != [] {
      var r0, e := Remaining(l[..|l| - 1], c), l[|l| - 1];
      RemainingTotal(l[..|l| - 1], c, m);
      assert (r0 + [e])[..|r0|] == r0;
      assert r0 + [] == r0;
    }
  }

  lemma DistinctSnoc(r: seq<End>, e: End)
    requires DistinctIds(r) && forall x <- r :: x.id != e.id
    ensures DistinctIds(r + [e])
  {}

  lemma {:induction false} RemainingDistinct(l: seq<End>, c: seq<Client>)
    requires DistinctIds(l)
    ensures DistinctIds(Remaining(l, c))
  {
    hide Remains, DistinctIds;
    if l != [] {
      var l0, e := l[..|l| - 1], l[|l| - 1];
      DistinctFront(l);
      RemainingDistinct(l0, c);
      var r0 := Remaining(l0, c);
      forall x <- r0
        ensures x.id != e.id
      {
        RemainingHas(l0, c, x);
      }
      DistinctSnoc(r0, e);
      assert r0 + [] == r0;
    }
  }

  lemma DistinctFront(l: seq<End>)
    requires DistinctIds(l) && l != []
    ensures DistinctIds(l[..|l| - 1]) && forall x <- l[..|l| - 1] :: x.id != l[|l| - 1].id
  {
    assert forall i | 0 <= i < |l| - 1 :: l[..|l| - 1][i] == l[i];
  }

  lemma RemainingAre(l: seq<End>, c: seq<Client>)
    requires DistinctIds(l)
    ensures forall e :: e in Remaining(l, c) <==> e in l && Remains(e, c)
    ensures DistinctIds(Remaining(l, c))
    ensures forall m :: EndsTotal(Remaining(l, c), m) <= EndsTotal(l, m)
  {
    hide Remains, Remaining, DistinctIds, EndsTotal;
    RemainingDistinct(l, c);
    forall e
      ensures e in Remaining(l, c) <==> e in l && Remains(e, c)
    {
      RemainingHas(l, c, e);
    }
    forall m
      ensures EndsTotal(Remaining(l, c), m) <= EndsTotal(l, m)
    {
      RemainingTotal(l, c, m);
    }
  }

  lemma {:induction false} ConcatTotal(a: seq<End>, b: seq<End>, m: Msg)
    requires forall e <- b :: e.up == [] && e.down == []
    ensures EndsTotal(a + b, m) == EndsTotal(a, m)
    decreases |b|
  {
    if b == [] {
      assert a + b == a;
    } else {
      var b0 := b[..|b| - 1];
      assert (a + b)[..|a + b| - 1] == a + b0 && b[|b| - 1] in b;
      ConcatTotal(a, b0, m);
    }
  }

  lemma ConcatLinks(a: seq<End>, b: seq<End>)
    ensures Links(a + b) == Links(a) + Links(b)
  {
    var l := a + b;
    forall x | x in Links(a) + Links(b)
      ensures x in Links(l)
    {
      if x in Links(a) {
        var i :| 0 <= i < |a| && x == (a[i].id, a[i].fd);
        assert l[i] == a[i];
      } else {
        var i :| 0 <= i < |b| && x == (b[i].id, b[i].fd);
        assert l[|a| + i] == b[i];
      }
    }
  }

  /** Ids identify authenticated connections. */
  lemma OneConnection(c: seq<Client>, id: u64, fd: int, fd': int)
    requires UniquePeers(c) && (id, fd) in PeerFds(c) && (id, fd') in PeerFds(c)
    ensures fd == fd'
  {
    var i :| 0 <= i < |c| && c[i].Peer() && (id, fd) == (c[i].id, c[i].fd);
    var j :| 0 <= j < |c| && c[j].Peer() && (id, fd') == (c[j].id, c[j].fd);
    assert i == j;
  }

  /** The clients after some have gone and some have come. */
  lemma EndsAfter(l: seq<End>, news: seq<End>, c: seq<Client>, c': seq<Client>)
    requires DistinctIds(l) && Links(l) == PeerFds(c) && FineEnds(l) && Arrivals(news, c, c') && UniquePeers(c')
    ensures var l' := Remaining(l, c') + news;
            && DistinctIds(l') && Links(l') == PeerFds(c') && FineEnds(l')
            && forall m :: EndsTotal(l', m) <= EndsTotal(l, m)
  {
    hide PeerFds, EndsTotal, UniquePeers, AllFine, T.Newcomer;
    RemainingAre(l, c');
    var r := Remaining(l, c');
    var l' := r + news;
    ConcatLinks(r, news);
    forall i, j | 0 <= i < |r| && 0 <= j < |news|
      ensures r[i].id != news[j].id
    {
      assert r[i] in r;
      assert (news[j].id, news[j].fd) in Links(news);
      var k :| 0 <= k < |l| && l[k] == r[i];
      assert (l[k].id, l[k].fd) in Links(l);
      if r[i].id == news[j].id { OneConnection(c', r[i].id, r[i].fd, news[j].fd); }
    }
    RemainingLinks(l, c, c');
    forall m
      ensures EndsTotal(l', m) <= EndsTotal(l, m)
    {
      ConcatTotal(r, news, m);
    }
    assert forall e <- news :: AllFine(e.id, e.down) by { NothingIsFine(news); }
  }

  lemma NothingIsFine(news: seq<End>)
    requires forall e <- news :: e.down == []
    ensures forall e <- news :: AllFine(e.id, e.down)
  {}

  lemma RemainingLinks(l: seq<End>, c: seq<Client>, c': seq<Client>)
    requires DistinctIds(l) && Links(l) == PeerFds(c)
    ensures Links(Remaining(l, c')) == PeerFds(c) * PeerFds(c')
  {
    hide PeerFds;
    RemainingAre(l, c');
    var r := Remaining(l, c');
    forall x | x in Links(r)
      ensures x in PeerFds(c) * PeerFds(c')
    {
      var i :| 0 <= i < |r| && x == (r[i].id, r[i].fd);
      assert r[i] in r;
      var k :| 0 <= k < |l| && l[k] == r[i];
      assert x in Links(l);
    }
    forall x | x in PeerFds(c) * PeerFds(c')
      ensures x in Links(r)
    {
      var i :| 0 <= i < |l| && x == (l[i].id, l[i].fd);
      assert l[i] in r;
    }
  }

  /** In terms of the transfers, clients come and go. */
  lemma EndsTurn(n: T.Net, l: seq<End>, news: seq<End>, c: seq<Client>, c': seq<Client>)
    requires n.peers == Clients(l) && DistinctIds(l) && Links(l) == PeerFds(c) && Arrivals(news, c, c')
    requires DistinctIds(Remaining(l, c') + news) && Attended(n.running, c, c')
    ensures T.Turns(n, Clients(Remaining(l, c') + news))
  {
    hide PeerFds, Clients, T.Newcomer, Attended;
    RemainingAre(l, c');
    var l' := Remaining(l, c') + news;
    forall q | q in Clients(l')
      ensures (q in n.peers && Clients(l')[q] == n.peers[q]) || T.Newcomer(Clients(l')[q])
    {
      var i := ClientFrom(l', q);
      ClientAt(l', i);
      if i < |Remaining(l, c')| {
        assert l'[i] in Remaining(l, c');
        var k :| 0 <= k < |l| && l[k] == l'[i];
        ClientAt(l, k);
      } else {
        assert l'[i] in news;
      }
    }
    forall q | q in n.peers && T.Involved(n, q)
      ensures q in Clients(l') && Clients(l')[q] == n.peers[q]
    {
      var k := ClientFrom(l, q);
      ClientAt(l, k);
      assert (l[k].id, l[k].fd) in Links(l);
      StaysOn(n, q, l[k].fd, c, c');
      assert l[k] in Remaining(l, c');
      var i :| 0 <= i < |Remaining(l, c')| && Remaining(l, c')[i] == l[k];
      assert l'[i] == l[k];
      ClientAt(l', i);
    }
  }

  lemma StaysOn(n: T.Net, q: u64, fd: int, c: seq<Client>, c': seq<Client>)
    requires T.Involved(n, q) && Attended(n.running, c, c') && (q, fd) in PeerFds(c)
    ensures (q, fd) in PeerFds(c')
  {
    hide PeerFds;
    var k :| k in n.running && (k.q == q || k.p == q);
    assert (q, fd).0 == q;
  }

  lemma ServeParts(w: World, n: T.Net, i: nat, e: Event, l: seq<End>, news: seq<End>, lfd: int, cfg: Config, w': World)
    requires WInv(w, lfd) && Sim(w, n) && JServe(w, i, e, l, news, w', lfd, cfg)
    requires Unwrapped(w.srv) && Unwrapped(w'.srv)
    ensures WInv(w', lfd) && T.Turns(n, Clients(w'.ends)) && w'.running == n.running
    ensures forall m | T.Core(m) :: Total(w', m) <= Occ(n.flight, m)
  {
    hide FdInv, FineSlots, FineEnds, ServerSpec.Step, Moves, PeerFds, Taken, Given, Clients, EndsTotal, Quiet, Attended;
    hide SlotsTotal, Unwrapped, T.Core, DistinctIds, Links, Occ, Arrivals, T.Turns, DbBelow, SlotBelow, UniquePeers;
    StepKeepsFds(w.srv, e, w'.srv, lfd, cfg);
    StepKeepsPeers(w.srv, e, w'.srv, lfd, cfg);
    ServeBalanced(w.srv, e, w'.srv, lfd, cfg);
    MovedEnds(w, i, e, l, cfg);
    EndsAfter(l, news, w.srv.c, w'.srv.c);
    EndsTurn(n, l, news, w.srv.c, w'.srv.c);
    hide Remaining;
  }

  lemma ServeSim(w: World, n: T.Net, a: Act, lfd: int, cfg: Config, w': World) returns (n': T.Net)
    requires Good(w, n, lfd) && a.Serve? && JServe(w, a.i, a.e, a.l, a.news, w', lfd, cfg)
    requires Unwrapped(w.srv) && Unwrapped(w'.srv)
    ensures Good(w', n', lfd) && T.Step(n, T.Turnover(Clients(w'.ends)), n')
  {
    hide T.Inv, T.Step, WInv, Total, T.Turns, Clients, JServe, T.Core, Occ, Unwrapped;
    ServeParts(w, n, a.i, a.e, a.l, a.news, lfd, cfg, w');
    n' := n.(peers := Clients(w'.ends));
    TurnStep(n, Clients(w'.ends));
    O.StepKeeps(n, T.Turnover(Clients(w'.ends)), n');
  }

  lemma TurnStep(n: T.Net, peers: map<u64, C.Clt>)
    requires T.Turns(n, peers)
    ensures T.Step(n, T.Turnover(peers), n.(peers := peers))
  {
    hide T.Turns;
  }

  // ----- every step -----

  ghost predicate MayStep(n: T.Net, n': T.Net) { n' == n || exists b :: T.Step(n, b, n') }

  lemma Made(n: T.Net, b: T.Act, n': T.Net)
    requires T.Step(n, b, n')
    ensures MayStep(n, n')
  {}

  /** A step of clients and server is a step of the transfers, or changes nothing of them. */
  lemma JStepSim(w: World, n: T.Net, a: Act, lfd: int, cfg: Config, w': World) returns (n': T.Net)
    requires Good(w, n, lfd) && JStep(w, a, w', lfd, cfg) && Unwrapped(w.srv) && Unwrapped(w'.srv)
    ensures Good(w', n', lfd) && MayStep(n, n')
  {
    hide Good, T.Step, JSend, JServe, JReceive, JAccept, JChat, MayStep, Unwrapped;
    match a
    case Send(i) =>
      InRange(w, a, lfd, cfg, w');
      n' := SendSim(w, n, i, lfd, w');
      Made(n, T.Transmit(w.ends[i].id), n');
    case Serve(i, e, l, news) =>
      n' := ServeSim(w, n, a, lfd, cfg, w');
      Made(n, T.Turnover(Clients(w'.ends)), n');
    case Receive(i, env) =>
      InRange(w, a, lfd, cfg, w');
      if T.Core(w.ends[i].down[0]) {
        var j;
        n', j := ReceiveCore(w, n, i, env, lfd, w');
        Made(n, T.Deliver(j, env), n');
      } else {
        n' := ReceiveOther(w, n, i, env, lfd, w');
        Made(n, T.Chat(w.ends[i].id, w'.ends[i].clt), n');
      }
    case Accept(i, k, src, env) =>
      n' := AcceptSim(w, n, a, lfd, w');
      Made(n, T.Accept(k, src, env), n');
    case Chat(i, c) =>
      InRange(w, a, lfd, cfg, w');
      n' := ChatAct(w, n, a, lfd, w');
      Made(n, T.Chat(w.ends[i].id, c), n');
  }

  lemma Still(n: T.Net)
    ensures MayStep(n, n)
  {}

  lemma InRange(w: World, a: Act, lfd: int, cfg: Config, w': World)
    requires JStep(w, a, w', lfd, cfg) && !a.Serve?
    ensures a.i < |w.ends| && (a.Receive? ==> w.ends[a.i].down != [])
  {}

  // ----- runs -----

  /** A server in any reachable state, a client for each authenticated connection that has had nothing to do with
      files so far, and nothing on its way. */
  ghost predicate JInitial(w: World, lfd: int) {
    && FdInv(w.srv, lfd) && PeerInv(w.srv) && DistinctIds(w.ends) && Linked(w.srv.c, w.ends)
    && (forall x <- w.srv.c | x.Peer() :: x.tx.q == []) && w.running == map[]
    && forall e <- w.ends :: e.up == [] && e.down == [] && T.Newcomer(e.clt)
  }

  lemma {:induction false} NothingOnItsWay(l: seq<End>, c: seq<Client>, m: Msg)
    requires (forall e <- l :: e.up == [] && e.down == []) && forall x <- c | x.Peer() :: x.tx.q == []
    ensures EndsTotal(l, m) == 0 && SlotsTotal(c, m) == 0
  {
    if l != [] {
      assert l[|l| - 1] in l;
      NothingOnItsWay(l[..|l| - 1], c, m);
    } else if c != [] {
      assert c[|c| - 1] in c;
      NothingOnItsWay(l, c[..|c| - 1], m);
    }
  }

  lemma InitialGood(w: World, lfd: int) returns (n: T.Net)
    requires JInitial(w, lfd)
    ensures Good(w, n, lfd) && R.Initial(n)
  {
    n := T.Net(Clients(w.ends), [], map[]);
    hide FdInv, PeerInv, Linked, T.Core;
    forall p <- n.peers
      ensures T.Newcomer(n.peers[p])
    {
      var i := ClientFrom(w.ends, p);
      ClientAt(w.ends, i);
      assert w.ends[i] in w.ends;
    }
    forall m | T.Core(m)
      ensures Total(w, m) == 0
    {
      NothingOnItsWay(w.ends, w.srv.c, m);
    }
    assert R.Initial(n) by { InitialNet(n); }
    hide Clients, EndsTotal, SlotsTotal, Fine, T.Newcomer, T.Inv, R.Initial;
    R.InitialInv(n);
  }

  lemma InitialNet(n: T.Net)
    requires n.flight == [] && n.running == map[] && forall p <- n.peers :: T.Newcomer(n.peers[p])
    ensures R.Initial(n)
  {}

  ghost predicate JRun(ws: seq<World>, acts: seq<Act>, lfd: int, cfg: Config) {
    |ws| == |acts| + 1 && forall k | 0 <= k < |acts| :: JStep(ws[k], acts[k], ws[k + 1], lfd, cfg)
  }

  /** The server's counter has not wrapped in any state. */
  ghost predicate NoneWraps(ws: seq<World>) { forall w <- ws :: Unwrapped(w.srv) }

  lemma {:induction false} JRunSim(ws: seq<World>, acts: seq<Act>, lfd: int, cfg: Config, k: nat) returns (n: T.Net)
    requires JRun(ws, acts, lfd, cfg) && JInitial(ws[0], lfd) && NoneWraps(ws) && k <= |acts|
    ensures Good(ws[k], n, lfd)
  {
    hide Good, JStep, MayStep, Unwrapped;
    assert ws[k] in ws;
    if k == 0 {
      n := InitialGood(ws[0], lfd);
    } else {
      hide JInitial;
      assert ws[k - 1] in ws;
      var n0 := JRunSim(ws, acts, lfd, cfg, k - 1);
      assert JStep(ws[k - 1], acts[k - 1], ws[k], lfd, cfg);
      n := JStepSim(ws[k - 1], n0, acts[k - 1], lfd, cfg, ws[k]);
    }
  }

  /** What holds of the transfers holds of the clients of the server: at every moment of every run, the part file
      of a running download is exactly the beginning of the source, and no client has ended. */
  lemma RelayedExactly(ws: seq<World>, acts: seq<Act>, lfd: int, cfg: Config, k: nat, key: T.Key)
    requires JRun(ws, acts, lfd, cfg) && JInitial(ws[0], lfd) && NoneWraps(ws) && k <= |acts|
    requires key in ws[k].running
    ensures key.q in Clients(ws[k].ends) && key.p in Clients(ws[k].ends)
    ensures F.Downloads(Clients(ws[k].ends)[key.q], key.p, key.oid, ws[k].running[key])
    ensures forall e <- ws[k].ends :: !e.clt.dead
  {
    var n := JRunSim(ws, acts, lfd, cfg, k);
    forall e <- ws[k].ends
      ensures e.clt.dead == false
    {
      var i :| 0 <= i < |ws[k].ends| && ws[k].ends[i] == e;
      Known(ws[k], n, i, lfd);
    }
    hide FdInv, PeerInv, FineSlots, FineEnds, Clients, JRun, JInitial, F.Downloads, Total, T.Core, T.CountsOk, T.OwedOk;
    hide T.AllApart;
  }

  /** A step at which a download ends leaves the whole source under the final name. */
  lemma EndOf(w: World, n: T.Net, w': World, n': T.Net, lfd: int, key: T.Key)
    requires Good(w, n, lfd) && Good(w', n', lfd) && MayStep(n, n') && key in w.running && key !in w'.running
    ensures key.q in Clients(w.ends) && key.q in Clients(w'.ends)
    ensures var l := Clients(w.ends)[key.q].transfers; C.FindTransfer(l, C.Download, key.p, key.oid) < |l|
    ensures var d := F.Entry(Clients(w.ends)[key.q], key.p, key.oid);
            && d.offset == d.size && d.name.Some?
            && d.name.value in Clients(w'.ends)[key.q].files
            && Clients(w'.ends)[key.q].files[d.name.value] == w.running[key]
  {
    hide WInv, T.Inv, T.Step, Clients, Total, T.Core;
    assert n != n';
    var b :| T.Step(n, b, n');
    R.EndsComplete(n, b, n', key);
  }

  /** The transfer theorem with the server itself in the middle: a download that was running and no longer is has
      been delivered whole. */
  lemma RelayedWhole(ws: seq<World>, acts: seq<Act>, lfd: int, cfg: Config, k: nat, key: T.Key)
    requires JRun(ws, acts, lfd, cfg) && JInitial(ws[0], lfd) && NoneWraps(ws) && k < |acts|
    requires key in ws[k].running && key !in ws[k + 1].running
    ensures key.q in Clients(ws[k].ends) && key.q in Clients(ws[k + 1].ends)
    ensures var l := Clients(ws[k].ends)[key.q].transfers; C.FindTransfer(l, C.Download, key.p, key.oid) < |l|
    ensures var d := F.Entry(Clients(ws[k].ends)[key.q], key.p, key.oid);
            && d.offset == d.size && d.name.Some?
            && d.name.value in Clients(ws[k + 1].ends)[key.q].files
            && Clients(ws[k + 1].ends)[key.q].files[d.name.value] == ws[k].running[key]
  {
    hide Good, JStep, MayStep, JInitial, Clients, C.FindTransfer, Unwrapped;
    assert ws[k] in ws && ws[k + 1] in ws;
    var n := JRunSim(ws, acts, lfd, cfg, k);
    assert JStep(ws[k], acts[k], ws[k + 1], lfd, cfg);
    var n' := JStepSim(ws[k], n, acts[k], lfd, cfg, ws[k + 1]);
    EndOf(ws[k], n, ws[k + 1], n', lfd, key);
  }
}
