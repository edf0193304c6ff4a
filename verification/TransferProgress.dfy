/** A running download always has a step that advances it, and only finitely many of them. */
module TransferProgress {
  import opened Bytes
  import opened Message
  import opened ClientSpec
  import opened TransferFacts
  import opened Transfers
  import opened TransferFrame
  import opened TransferServe
  import opened TransferTake
  import opened TransferSteps
  import opened TransferTurnover
  import opened TransferOther
  import opened TransferRuns

  /** The step moves the one message outstanding of a download. */
  predicate Advances(s: Net, a: Act, k: Key) {
    match a
    case Transmit(p) =>
      && p in s.peers && s.peers[p].queue != []
      && ((p == k.q && Picks(ReqQ(k), s.peers[p].queue[0])) || (p == k.p && Picks(ResQ(k), s.peers[p].queue[0])))
    case Deliver(n, _) => n < |s.flight| && (Picks(ReqF(k), s.flight[n]) || Picks(ResF(k), s.flight[n]))
    case _ => false
  }

  /** Bytes that are lacking, and the way the outstanding message has still to go. */
  function Rank(s: Net, k: Key): int {
    if k in s.running && k.q in s.peers && k.p in s.peers
       && FindTransfer(s.peers[k.q].transfers, Download, k.p, k.oid) < |s.peers[k.q].transfers|
    then 4 * (|s.running[k]| - Entry(s.peers[k.q], k.p, k.oid).offset) + Way(s, k)
    else 0
  }

  function Way(s: Net, k: Key): nat
    requires k.q in s.peers && k.p in s.peers
  {
    3 * Count(s.peers[k.q].queue, ReqQ(k)) + 2 * Count(s.flight, ReqF(k)) + Count(s.peers[k.p].queue, ResQ(k))
  }

  predicate Has(s: Net, k: Key) {
    && k in s.running && k.q in s.peers && k.p in s.peers
    && FindTransfer(s.peers[k.q].transfers, Download, k.p, k.oid) < |s.peers[k.q].transfers|
  }

  function OffsetOf(s: Net, k: Key): u64
    requires Has(s, k)
  {
    Entry(s.peers[k.q], k.p, k.oid).offset
  }

  lemma HasEntry(s: Net, k: Key)
    requires Inv(s) && k in s.running
    ensures Has(s, k) && OffsetOf(s, k) <= |s.running[k]| && Outstanding(s, k) == 1
    ensures s.peers[k.q].st.AuthOk? && Downloads(s.peers[k.q], k.p, k.oid, s.running[k])
  {
    hide FindTransfer, GoodReq, GoodRes, Outstanding, Count, Offers;
  }

  lemma TransmitWay(s: Net, x: u64, k: Key)
    requires x in s.peers && s.peers[x].queue != [] && k.q in s.peers && k.p in s.peers
    ensures Way(Transmitted(s, x), k) + (if Advances(s, Transmit(x), k) then 1 else 0) <= Way(s, k)
  {
    hide Count, OidOf, Picks;
    var m := s.peers[x].queue[0];
    StampedPicks(m, x, k);
    CountTail(s.peers[x].queue, ReqQ(k));
    CountTail(s.peers[x].queue, ResQ(k));
    CountAppend(s.flight, m.(src := x), ReqF(k));
  }

  lemma TransmitRank(s: Net, x: u64, k: Key)
    requires Inv(s) && x in s.peers && s.peers[x].queue != [] && k in s.running
    ensures Rank(Transmitted(s, x), k) + (if Advances(s, Transmit(x), k) then 1 else 0) <= Rank(s, k)
  {
    HasEntry(s, k);
    hide Inv, Way, Advances, FindTransfer;
    TransmitWay(s, x, k);
  }

  lemma ServeWay(s: Net, n: nat, s': Net, t: Transfer, r: Msg, k: Key, env: Env)
    requires AfterRequest(s, n, s', t, r) && k.q in s.peers && k.p in s.peers
    ensures Way(s', k) + (if Advances(s, Deliver(n, env), k) then 1 else 0) <= Way(s, k)
  {
    hide Count, OidOf, FindTransfer, Matches;
    CountWithout(s.flight, n, ReqF(k));
    CountAppend(s.peers[s.flight[n].dst].queue, r, ReqQ(k));
    CountAppend(s.peers[s.flight[n].dst].queue, r, ResQ(k));
  }

  lemma ServeRank(s: Net, n: nat, env: Env, k: Key)
    requires Inv(s) && n < |s.flight| && s.flight[n].mtype == GETFILE_REQ && s.flight[n].dst in s.peers && env.Ok()
    requires env.HostOk() && k in s.running
    ensures Rank(Delivered(s, n, env), k) + (if Advances(s, Deliver(n, env), k) then 1 else 0) <= Rank(s, k)
  {
    HasEntry(s, k);
    var t, r := Served(s, n, env);
    var s' := Delivered(s, n, env);
    hide Inv, Delivered, GoodAnswer, AfterRequest, Way, Advances, FindTransfer;
    RequestStates(s, n, s', t, r);
    RequestEntry(s, n, s', t, r, k.q, k.p, k.oid);
    ServeWay(s, n, s', t, r, k, env);
  }

  lemma TakeWay(s: Net, n: nat, s': Net, t: Transfer, o: Option<Msg>, k: Key, env: Env)
    requires AfterResponse(s, n, s', t, o) && k.q in s.peers && k.p in s.peers
    ensures Advances(s, Deliver(n, env), k) <==> k == KeyOf(s.flight[n])
    ensures Way(s', k) <= Way(s, k) + if k == KeyOf(s.flight[n]) then 3 else 0
  {
    hide Count, OidOf, FindTransfer, FindPending, Touched;
    var m := s.flight[n];
    CountWithout(s.flight, n, ReqF(k));
    if o.Some? {
      CountAppend(s.peers[m.dst].queue, o.value, ReqQ(k));
      CountAppend(s.peers[m.dst].queue, o.value, ResQ(k));
    }
  }

  lemma TakeOffset(s: Net, n: nat, s': Net, t: Transfer, o: Option<Msg>, k: Key)
    requires Inv(s) && AfterResponse(s, n, s', t, o) && GoodTaking(s, n, s', o) && k in s.running && k in s'.running
    ensures Has(s, k) && Has(s', k) && OffsetOf(s', k) >= OffsetOf(s, k) + if k == KeyOf(s.flight[n]) then 1 else 0
  {
    HasEntry(s, k);
    var key := KeyOf(s.flight[n]);
    hide CountsOk, OwedOk, AllRunningOk, Tidy, FindTransfer, RunningOk, FileNames, OfferNames;
    if k == key {
      TakenOffset(s, n, s', t, o);
    } else {
      TakingRunning(s, n, s', o);
      assert Apart(s, key, k);
      hide Inv, AllApart;
      OtherOffset(s, n, s', t, o, k);
    }
  }

  lemma TakenOffset(s: Net, n: nat, s': Net, t: Transfer, o: Option<Msg>)
    requires AfterResponse(s, n, s', t, o) && GoodTaking(s, n, s', o) && KeyOf(s.flight[n]) in s'.running
    ensures var k := KeyOf(s.flight[n]);
            Has(s, k) && Has(s', k) && OffsetOf(s', k) > OffsetOf(s, k)
  {
    hide FindTransfer, OidOf, Touched, FindPending, GoodReq, GoodRes, Offers, Count;
  }

  lemma OtherOffset(s: Net, n: nat, s': Net, t: Transfer, o: Option<Msg>, k: Key)
    requires AfterResponse(s, n, s', t, o) && KeyOf(s.flight[n]) in s.running && k in s'.running
    requires k != KeyOf(s.flight[n])
    requires Has(s, k) && Downloads(s.peers[k.q], k.p, k.oid, s.running[k]) && Apart(s, KeyOf(s.flight[n]), k)
    ensures Has(s', k) && OffsetOf(s', k) == OffsetOf(s, k)
  {
    hide FindTransfer, OidOf, Touched, FindPending, DownloadNames, OfferNames, Downloads;
    var key := KeyOf(s.flight[n]);
    if k.q == key.q { TouchedDownload(s.peers[k.q], s'.peers[k.q], key.p, key.oid, t, k.p, k.oid); }
    EntryExists(s'.peers[k.q], k.p, k.oid, s.running[k]);
  }

  lemma EntryExists(c: Clt, p: u64, oid: u64, src: Content)
    requires Downloads(c, p, oid, src)
    ensures FindTransfer(c.transfers, Download, p, oid) < |c.transfers|
  {
    hide FindTransfer;
  }

  lemma TakeRank(s: Net, n: nat, env: Env, k: Key)
    requires Inv(s) && n < |s.flight| && s.flight[n].mtype == GETFILE_RES && s.flight[n].dst in s.peers && env.Ok()
    requires env.HostOk()
    requires k in s.running && k in Delivered(s, n, env).running
    ensures Rank(Delivered(s, n, env), k) + (if Advances(s, Deliver(n, env), k) then 1 else 0) <= Rank(s, k)
  {
    var t, o := Taken(s, n, env);
    var s' := Delivered(s, n, env);
    hide Inv, Delivered, FindTransfer, GoodTaking, AfterResponse, Way, Advances;
    TakeOffset(s, n, s', t, o, k);
    ResponseStates(s, n, s', t, o);
    TakeWay(s, n, s', t, o, k, env);
  }

  lemma SameRank(s: Net, s': Net, k: Key)
    requires Has(s, k) && Has(s', k) && s'.running[k] == s.running[k]
    requires OffsetOf(s', k) == OffsetOf(s, k) && Way(s', k) == Way(s, k)
    ensures Rank(s', k) == Rank(s, k)
  {
    hide FindTransfer, Count;
  }

  lemma ChatRank(s: Net, x: u64, c': Clt, k: Key)
    requires Inv(s) && x in s.peers && Chats(s, x, c') && k in s.running
    ensures Rank(s.(peers := s.peers[x := c']), k) == Rank(s, k)
  {
    HasEntry(s, k);
    ChatWay(s, x, c', k);
    ChatOffset(s, x, c', k);
    hide *;
    SameRank(s, s.(peers := s.peers[x := c']), k);
  }

  lemma ChatWay(s: Net, x: u64, c': Clt, k: Key)
    requires x in s.peers && Chats(s, x, c') && k.q in s.peers && k.p in s.peers
    ensures var s' := s.(peers := s.peers[x := c']); k.q in s'.peers && k.p in s'.peers && Way(s', k) == Way(s, k)
  {
    hide Count, Chats, ReqQ, ReqF, ResQ;
    ChatQueue(s, x, c', k);
  }

  lemma ChatOffset(s: Net, x: u64, c': Clt, k: Key)
    requires x in s.peers && Chats(s, x, c') && k in s.running && Has(s, k)
    ensures var s' := s.(peers := s.peers[x := c']); Has(s', k) && OffsetOf(s', k) == OffsetOf(s, k)
  {
    hide FindTransfer, Pending, OfferedNames;
  }

  lemma DropRank(s: Net, n: nat, k: Key)
    requires n < |s.flight| && s.flight[n].mtype !in {GETFILE_REQ, GETFILE_RES}
    ensures Rank(s.(flight := Without(s.flight, n)), k) == Rank(s, k)
  {
    hide FindTransfer, Count, OidOf;
    CountWithout(s.flight, n, ReqF(k));
  }

  lemma OtherRank(s: Net, n: nat, env: Env, k: Key)
    requires Inv(s) && n < |s.flight| && s.flight[n].dst in s.peers && Other(s.flight[n])
    requires Honest(s, s.flight[n], env) && env.Ok()
    requires k in s.running
    ensures Rank(Delivered(s, n, env), k) == Rank(s, k) && !Advances(s, Deliver(n, env), k)
  {
    var m := s.flight[n];
    OtherChats(s, m, env);
    hide Inv, Chats, Honest, ProcessSrvMsg, FindTransfer;
    var c' := ProcessSrvMsg(s.peers[m.dst], m, env);
    ChatRank(s, m.dst, c', k);
    DropRank(s.(peers := s.peers[m.dst := c']), n, k);
    hide Rank;
  }

  lemma AcceptWay(s: Net, key: Key, src: Content, s': Net, t: Transfer, r: Msg, k: Key)
    requires AfterAccept(s, key, src, s', t, r) && k.q in s.peers && k.p in s.peers && k != key
    ensures Way(s', k) == Way(s, k)
  {
    hide Count, OidOf, FindTransfer, AfterAccept, Touched, Downloads, GoodReq;
    AcceptStates(s, key, src, s', t, r);
    CountAppend(s.peers[key.q].queue, r, ReqQ(k));
    CountAppend(s.peers[key.q].queue, r, ResQ(k));
  }

  lemma AcceptOffset(s: Net, key: Key, src: Content, s': Net, t: Transfer, r: Msg, k: Key)
    requires AfterAccept(s, key, src, s', t, r) && k != key && Apart(s, key, k) && k in s.running
    requires Has(s, k) && Downloads(s.peers[k.q], k.p, k.oid, s.running[k])
    ensures Has(s', k) && OffsetOf(s', k) == OffsetOf(s, k)
  {
    hide AfterAccept, FindTransfer, OidOf, Touched, Downloads, GoodReq, DownloadNames, OfferNames;
    AcceptStates(s, key, src, s', t, r);
    if k.q == key.q { TouchedDownload(s.peers[k.q], s'.peers[k.q], key.p, key.oid, t, k.p, k.oid); }
    EntryExists(s'.peers[k.q], k.p, k.oid, s.running[k]);
  }

  lemma AfterAcceptRank(s: Net, key: Key, src: Content, s': Net, t: Transfer, r: Msg, k: Key)
    requires AfterAccept(s, key, src, s', t, r) && k != key && Apart(s, key, k) && k in s.running
    requires Has(s, k) && Downloads(s.peers[k.q], k.p, k.oid, s.running[k])
    ensures Rank(s', k) == Rank(s, k)
  {
    hide AfterAccept, FindTransfer, Apart, Downloads, Way, Touched, GoodReq, OidOf, OffsetOf, Rank;
    AcceptStates(s, key, src, s', t, r);
    AcceptOffset(s, key, src, s', t, r, k);
    AcceptWay(s, key, src, s', t, r, k);
    SameRank(s, s', k);
  }

  lemma AcceptRank(s: Net, key: Key, src: Content, env: Env, k: Key)
    requires Inv(s) && CanAccept(s, key, src) && env.Ok() && env.HostOk() && k in s.running
    ensures Rank(Accepted(s, key, src, env), k) == Rank(s, k)
  {
    hide Inv, CanAccept, AfterAccept, Apart, Downloads, Outstanding, Rank, Accepted, Has, OffsetOf;
    HasEntry(s, k);
    AcceptFresh(s, key, src);
    var t, r := AcceptedAfter(s, key, src, env);
    AfterAcceptRank(s, key, src, Accepted(s, key, src, env), t, r, k);
  }

  lemma TurnoverRank(s: Net, peers: map<u64, Clt>, k: Key)
    requires Inv(s) && Turns(s, peers) && k in s.running
    ensures Rank(s.(peers := peers), k) == Rank(s, k)
  {
    hide Inv, Turns, Downloads, Outstanding;
    HasEntry(s, k);
    InvolvedStay(s, s.(peers := peers), k);
    hide FindTransfer, Count;
  }

  /** No step moves a running download away from its end, and each that concerns it moves it nearer. */
  lemma StepRank(s: Net, a: Act, s': Net, k: Key)
    requires Inv(s) && Step(s, a, s') && k in s.running && k in s'.running
    ensures 0 <= Rank(s', k) && Rank(s', k) + (if Advances(s, a, k) then 1 else 0) <= Rank(s, k)
  {
    StepKeeps(s, a, s');
    HasEntry(s', k);
    hide Inv, Chats, Turns, Honest, CanAccept, Transmitted, Delivered, Accepted, Rank, Has, OffsetOf, Outstanding;
    hide Downloads;
    assert 0 <= Rank(s', k) by { RankNat(s', k); }
    match a
    case Transmit(p) => TransmitRank(s, p, k);
    case Accept(key, src, env) => AcceptRank(s, key, src, env, k);
    case Chat(q, c) => ChatRank(s, q, c, k);
    case Turnover(peers) => TurnoverRank(s, peers, k);
    case Deliver(n, env) =>
      if s.flight[n].mtype == GETFILE_REQ { ServeRank(s, n, env, k); }
      else if s.flight[n].mtype == GETFILE_RES { TakeRank(s, n, env, k); }
      else { NotLogin(s, s.flight[n], env); OtherRank(s, n, env, k); }
  }

  lemma RankNat(s: Net, k: Key)
    requires Has(s, k) && OffsetOf(s, k) <= |s.running[k]|
    ensures 0 <= Rank(s, k)
  {
    hide FindTransfer, Count;
  }

  /** How many steps of a run move the outstanding message of a download. */
  function Moves(ss: seq<Net>, acts: seq<Act>, k: Key, n: nat): nat
    requires n <= |acts| < |ss|
  {
    if n == 0 then 0 else Moves(ss, acts, k, n - 1) + if Advances(ss[n - 1], acts[n - 1], k) then 1 else 0
  }

  lemma {:induction false} MovesBounded(ss: seq<Net>, acts: seq<Act>, k: Key, n: nat)
    requires Run(ss, acts) && Inv(ss[0]) && n <= |acts| && forall i | 0 <= i <= n :: k in ss[i].running
    ensures Moves(ss, acts, k, n) + Rank(ss[n], k) <= Rank(ss[0], k) && Inv(ss[n]) && 0 <= Rank(ss[n], k)
  {
    hide Inv, Step, Rank, Advances;
    if n == 0 {
      HasEntry(ss[0], k);
      RankNat(ss[0], k);
    } else {
      MovesBounded(ss, acts, k, n - 1);
      StepRank(ss[n - 1], acts[n - 1], ss[n], k);
      StepKeeps(ss[n - 1], acts[n - 1], ss[n]);
    }
  }

  lemma WayBound(s: Net, k: Key)
    requires Has(s, k) && Outstanding(s, k) == 1
    ensures Rank(s, k) <= 4 * (|s.running[k]| - OffsetOf(s, k)) + 3
  {
    hide Count, FindTransfer;
  }

  /** A download cannot run for ever: from any moment on, each lacking byte costs at most four moves of its
      one message, and a last round of at most three ends it. */
  lemma TransferTerminates(ss: seq<Net>, acts: seq<Act>, k: Key, n: nat)
    requires Run(ss, acts) && Inv(ss[0]) && n <= |acts| && forall i | 0 <= i <= n :: k in ss[i].running
    ensures Has(ss[0], k)
    ensures Moves(ss, acts, k, n) <= 4 * (|ss[0].running[k]| - OffsetOf(ss[0], k)) + 3
  {
    HasEntry(ss[0], k);
    hide Inv, Step, Rank, Advances, Has, OffsetOf;
    MovesBounded(ss, acts, k, n);
    WayBound(ss[0], k);
  }

  /** The client that has a message to send, or the message that is in flight. */
  ghost predicate Nearer(s: Net, a: Act, k: Key) {
    match a
    case Transmit(p) =>
      && p in s.peers && s.peers[p].queue != []
      && exists m <- s.peers[p].queue :: (p == k.q && Picks(ReqQ(k), m)) || (p == k.p && Picks(ResQ(k), m))
    case Deliver(_, _) => Advances(s, a, k)
    case _ => false
  }

  /** Nor can it get stuck: its message is in flight and can be delivered, or in a queue that can be sent. */
  lemma TransferNeverStuck(s: Net, k: Key, env: Env) returns (a: Act, s': Net)
    requires Inv(s) && k in s.running && env.Ok() && env.HostOk()
    ensures Step(s, a, s') && Nearer(s, a, k)
  {
    HasEntry(s, k);
    hide Inv, FindTransfer, Downloads, Count, Step, Nearer;
    if Count(s.peers[k.q].queue, ReqQ(k)) > 0 {
      var j := SomePicked(s.peers[k.q].queue, ReqQ(k));
      a := Transmit(k.q);
      s' := Sent(s, k, k.q, j);
    } else if Count(s.peers[k.p].queue, ResQ(k)) > 0 {
      var j := SomePicked(s.peers[k.p].queue, ResQ(k));
      a := Transmit(k.p);
      s' := Sent(s, k, k.p, j);
    } else {
      var n := InFlight(s, k);
      a, s' := Deliver(n, env), Delivered(s, n, env);
      CanDeliver(s, k, n, env);
    }
  }

  lemma Sent(s: Net, k: Key, p: u64, j: nat) returns (s': Net)
    requires p in s.peers && j < |s.peers[p].queue|
    requires (p == k.q && Picks(ReqQ(k), s.peers[p].queue[j])) || (p == k.p && Picks(ResQ(k), s.peers[p].queue[j]))
    ensures Step(s, Transmit(p), s') && Nearer(s, Transmit(p), k)
  {
    hide Picks, Transmitted;
    assert s.peers[p].queue[j] in s.peers[p].queue;
    s' := Transmitted(s, p);
  }

  lemma CanDeliver(s: Net, k: Key, n: nat, env: Env)
    requires n < |s.flight| && (Picks(ReqF(k), s.flight[n]) || Picks(ResF(k), s.flight[n]))
    requires s.flight[n].dst in s.peers && s.flight[n].mtype in {GETFILE_REQ, GETFILE_RES} && env.Ok() && env.HostOk()
    ensures Step(s, Deliver(n, env), Delivered(s, n, env)) && Nearer(s, Deliver(n, env), k)
  {
    hide Delivered, OidOf;
  }

  lemma InFlight(s: Net, k: Key) returns (n: nat)
    requires Has(s, k) && Count(s.flight, ReqF(k)) + Count(s.flight, ResF(k)) > 0
    ensures n < |s.flight| && (Picks(ReqF(k), s.flight[n]) || Picks(ResF(k), s.flight[n]))
    ensures s.flight[n].dst in s.peers && s.flight[n].mtype in {GETFILE_REQ, GETFILE_RES}
  {
    hide FindTransfer, Count, OidOf;
    if Count(s.flight, ReqF(k)) > 0 { n := SomePicked(s.flight, ReqF(k)); } else { n := SomePicked(s.flight, ResF(k)); }
  }
}
