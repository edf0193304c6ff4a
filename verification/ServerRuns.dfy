/** Whole runs of the server: identity, delivery, one outcome per message, the list of peers. */
module ServerRuns {
  import opened Bytes
  import opened Message
  import opened Channel
  import opened UserFile
  import opened UserDb
  import opened UserDbMap
  import opened ServerSpec
  import opened ServerInv
  import opened ServerIds
  import opened ServerPeers

  // ----- start -----

  /** A fresh server: no connection yet, the database loaded from its file. */
  ghost predicate Initial(s: Srv, file: Option<seq<byte>>, lfd: int) {
    && (forall x <- s.c :: x == CLOSED) && lfd >= 0
    && s.rfds == {lfd} && s.wfds == {} && s.maxfd == lfd && !s.dead
    && s.db == Load(Db([], 1, file))
  }

  /** What the database file must be like: no id used twice and no id at the very end of the range. */
  ghost predicate GoodAccounts(l: seq<Entry>) {
    && (forall i, j | 0 <= i < j < |l| :: l[i].id != l[j].id)
    && (forall e <- l :: 0 < e.id < MAX_ID)
  }

  lemma InitialDb(s: Srv, file: Option<seq<byte>>)
    requires s.db == Load(Db([], 1, file)) && GoodAccounts(s.db.list)
    ensures DbOk(s.db) && s.db.nextId > 0 && forall e <- s.db.list :: e.id < s.db.nextId
  {
    var d0 := Db([], 1, file);
    LoadSettles(d0);
    LoadBelow(d0);
    hide Load;
  }

  lemma InitialSlots(s: Srv, lfd: int)
    requires (forall x <- s.c :: x == CLOSED) && lfd >= 0 && s.rfds == {lfd} && s.wfds == {} && s.maxfd == lfd
    ensures FdInv(s, lfd) && SlotBindings(s.c) == {} && UniquePeers(s.c) && forall x <- s.c :: SlotOk(x)
  {
    assert forall j | 0 <= j < |s.c| :: s.c[j] in s.c && s.c[j] == CLOSED;
    assert SlotBindings(s.c) == {};
    assert BusyFds(s.c) == {} && OpenFds(s.c) == {};
  }

  lemma AccountsOneToOne(s: Srv)
    requires GoodAccounts(s.db.list) && Distinct(s.db.list) && SlotBindings(s.c) == {}
    requires forall e <- s.db.list :: e.id < s.db.nextId
    ensures OneToOne(Bindings(s)) && Issued(Bindings(s), s.db.nextId)
  {
    forall p, q | p in Bindings(s) && q in Bindings(s)
      ensures p.0 == q.0 <==> p.1 == q.1
    {
      var i :| 0 <= i < |s.db.list| && p == (s.db.list[i].id, s.db.list[i].name);
      var j :| 0 <= j < |s.db.list| && q == (s.db.list[j].id, s.db.list[j].name);
      assert i != j ==> s.db.list[i].id != s.db.list[j].id && s.db.list[i].name != s.db.list[j].name;
    }
  }

  lemma InitialInv(s: Srv, file: Option<seq<byte>>, lfd: int)
    requires Initial(s, file, lfd) && GoodAccounts(s.db.list)
    ensures FdInv(s, lfd) && IdInv(s) && s.db.nextId > 0
  {
    hide Load, FdInv, GoodAccounts, OneToOne, Issued, UniquePeers, SlotOk, Bindings;
    InitialDb(s, file);
    InitialSlots(s, lfd);
    AccountsOneToOne(s);
  }

  // ----- runs -----

  /** The database file can be written whenever the only account is dropped, and ids cannot wrap because the
      run is shorter than what is left of the counter. */
  ghost predicate Undisturbed(r: seq<Srv>, es: seq<Event>) {
    && |r| == |es| + 1 && 0 < r[0].db.nextId && r[0].db.nextId + |es| <= MAX_ID
    && forall k | 0 <= k < |es| :: Saved(r[k], es[k])
  }

  lemma {:induction false} RunFds(r: seq<Srv>, es: seq<Event>, lfd: int, cfg: Config, k: nat)
    requires Run(r, es, lfd, cfg) && FdInv(r[0], lfd) && k <= |es|
    ensures FdInv(r[k], lfd)
  {
    hide FdInv, Step;
    if k > 0 {
      RunFds(r, es, lfd, cfg, k - 1);
      assert Step(r[k - 1], es[k - 1], r[k], lfd, cfg);
      StepKeepsFds(r[k - 1], es[k - 1], r[k], lfd, cfg);
    }
  }

  lemma {:induction false} RunInv(r: seq<Srv>, es: seq<Event>, lfd: int, cfg: Config, k: nat)
    requires Run(r, es, lfd, cfg) && FdInv(r[0], lfd) && IdInv(r[0]) && Undisturbed(r, es) && k <= |es|
    ensures FdInv(r[k], lfd) && IdInv(r[k]) && r[0].db.nextId <= r[k].db.nextId <= r[0].db.nextId + k
  {
    hide FdInv, IdInv, Step;
    if k > 0 {
      RunInv(r, es, lfd, cfg, k - 1);
      assert Step(r[k - 1], es[k - 1], r[k], lfd, cfg);
      StepKeepsFds(r[k - 1], es[k - 1], r[k], lfd, cfg);
      StepKeepsIds(r[k - 1], es[k - 1], r[k], lfd, cfg);
    }
  }

  /** What is bound later was bound earlier, or carries an id issued in between. */
  lemma {:induction false} BindingsBack(r: seq<Srv>, es: seq<Event>, lfd: int, cfg: Config, j: nat, k: nat, b: Binding)
    requires Run(r, es, lfd, cfg) && FdInv(r[0], lfd) && IdInv(r[0]) && Undisturbed(r, es) && j <= k <= |es|
    requires b in Bindings(r[k])
    ensures b in Bindings(r[j]) || b.0 >= r[j].db.nextId
    ensures r[j].db.nextId <= r[k].db.nextId
    decreases k
  {
    hide FdInv, IdInv, Step, Bindings;
    if j < k {
      RunInv(r, es, lfd, cfg, k - 1);
      assert Step(r[k - 1], es[k - 1], r[k], lfd, cfg);
      StepKeepsIds(r[k - 1], es[k - 1], r[k], lfd, cfg);
      assert b in Bindings(r[k - 1]) || b.0 == r[k - 1].db.nextId;
      if b in Bindings(r[k - 1]) {
        BindingsBack(r, es, lfd, cfg, j, k - 1, b);
      } else {
        CounterGrows(r, es, lfd, cfg, j, k - 1);
      }
    }
  }

  lemma {:induction false} CounterGrows(r: seq<Srv>, es: seq<Event>, lfd: int, cfg: Config, j: nat, k: nat)
    requires Run(r, es, lfd, cfg) && FdInv(r[0], lfd) && IdInv(r[0]) && Undisturbed(r, es) && j <= k <= |es|
    ensures r[j].db.nextId <= r[k].db.nextId
    decreases k
  {
    hide FdInv, IdInv, Step;
    if j < k {
      RunInv(r, es, lfd, cfg, k - 1);
      assert Step(r[k - 1], es[k - 1], r[k], lfd, cfg);
      StepKeepsIds(r[k - 1], es[k - 1], r[k], lfd, cfg);
      CounterGrows(r, es, lfd, cfg, j, k - 1);
    }
  }

  /** Identity binding over a whole run: an id that stood for a name at any time never stands for
      another name later; at any one time names and ids correspond one to one; and the counter is above
      every id in use. */
  lemma IdentityBinding(r: seq<Srv>, es: seq<Event>, lfd: int, cfg: Config, file: Option<seq<byte>>, j: nat, k: nat)
    requires Run(r, es, lfd, cfg) && Initial(r[0], file, lfd) && GoodAccounts(r[0].db.list) && Undisturbed(r, es)
    requires j <= k <= |es|
    ensures forall p, q | p in Bindings(r[j]) && q in Bindings(r[k]) && p.0 == q.0 :: p.1 == q.1
    ensures forall p, q | p in Bindings(r[k]) && q in Bindings(r[k]) :: p.0 == q.0 <==> p.1 == q.1
    ensures forall p | p in Bindings(r[k]) :: 0 < p.0 < r[k].db.nextId
  {
    InitialInv(r[0], file, lfd);
    RunInv(r, es, lfd, cfg, j);
    RunInv(r, es, lfd, cfg, k);
    forall p, q | p in Bindings(r[j]) && q in Bindings(r[k]) && p.0 == q.0
      ensures p.1 == q.1
    {
      BindingsBack(r, es, lfd, cfg, j, k, q);
    }
  }

  /** Readiness agreement in every reachable state, whatever the account file holds and whether or not it can
      be written: the sets are exact, and no descriptor is beyond what a set can hold. */
  lemma ReadinessInRuns(r: seq<Srv>, es: seq<Event>, lfd: int, cfg: Config, file: Option<seq<byte>>, k: nat)
    requires Run(r, es, lfd, cfg) && Initial(r[0], file, lfd) && k <= |es|
    ensures r[k].rfds == {lfd} + OpenFds(r[k].c) && r[k].wfds == BusyFds(r[k].c)
    ensures forall x <- r[k].c | x.Open() :: x.fd <= r[k].maxfd && x.fd < FD_SETSIZE
  {
    InitialSlots(r[0], lfd);
    RunFds(r, es, lfd, cfg, k);
  }

  /** The counter wraps in no state of the run. */
  ghost predicate NeverWraps(r: seq<Srv>) { forall s <- r :: Unwrapped(s) }

  lemma InitialPeers(s: Srv, file: Option<seq<byte>>, lfd: int)
    requires Initial(s, file, lfd) && Unwrapped(s)
    ensures FdInv(s, lfd) && PeerInv(s)
  {
    var d0 := Db([], 1, file);
    LoadSettles(d0);
    LoadBelow(d0);
    InitialSlots(s, lfd);
    hide Load, FdInv, NoLastId, UniquePeers, DbBelow;
  }

  lemma {:induction false} RunPeers(r: seq<Srv>, es: seq<Event>, lfd: int, cfg: Config, k: nat)
    requires Run(r, es, lfd, cfg) && PeerInv(r[0]) && NeverWraps(r) && k <= |es|
    ensures PeerInv(r[k]) && r[0].db.nextId <= r[k].db.nextId
  {
    hide PeerInv, Step, Unwrapped;
    if k > 0 {
      RunPeers(r, es, lfd, cfg, k - 1);
      assert r[k - 1] in r && r[k] in r;
      assert Step(r[k - 1], es[k - 1], r[k], lfd, cfg);
      StepKeepsPeers(r[k - 1], es[k - 1], r[k], lfd, cfg);
    }
  }

  /** No two authenticated slots share an id, in every reachable state, whatever the account file holds and
      whichever saves fail; and no id of a logged in slot or of an account will be issued again. */
  lemma ReachableStates(r: seq<Srv>, es: seq<Event>, lfd: int, cfg: Config, file: Option<seq<byte>>, k: nat)
    requires Run(r, es, lfd, cfg) && Initial(r[0], file, lfd) && NeverWraps(r) && k <= |es|
    ensures r[k].rfds == {lfd} + OpenFds(r[k].c) && r[k].wfds == BusyFds(r[k].c)
    ensures forall x <- r[k].c | x.Open() :: x.fd <= r[k].maxfd && x.fd < FD_SETSIZE
    ensures forall i, j | 0 <= i < j < |r[k].c| && r[k].c[i].Peer() && r[k].c[j].Peer() :: r[k].c[i].id != r[k].c[j].id
    ensures forall x <- r[k].c | x.Open() && x.st in {LoginOk, AuthOk} :: 0 < x.id < r[k].db.nextId
    ensures forall e <- r[k].db.list :: 0 < e.id < r[k].db.nextId
  {
    assert r[0] in r;
    InitialPeers(r[0], file, lfd);
    RunFds(r, es, lfd, cfg, k);
    RunPeers(r, es, lfd, cfg, k);
    hide Step, Unwrapped;
  }

  // ----- delivery -----

  lemma FindPeerUnique(c: seq<Client>, id: u64, k: nat)
    requires UniquePeers(c) && k < |c| && c[k].Peer() && c[k].id == id
    ensures FindPeer(c, id) == k
  {
    assert forall j | 0 <= j < k && c[j].Peer() :: c[j].id != c[k].id;
    var f := FindPeer(c, id);
    assert f <= k;
  }

  /** Unique delivery.  A message of a forwardable type from an authenticated client to another id
      reaches the only peer with that id, unchanged but for the sender's true id, and nobody else. */
  lemma UniqueDelivery(s: Srv, i: nat, m: Msg, env: Env, k: nat)
    requires UniquePeers(s.c) && i < |s.c| && s.c[i].Peer() && m.dst != 0 && m.dst != BROADCAST
    requires Forwardable(m.mtype)
    requires k < |s.c| && s.c[k].Peer() && s.c[k].id == m.dst
    ensures forall j | 0 <= j < |s.c| && j != k :: !(s.c[j].Peer() && s.c[j].id == m.dst)
    ensures ProcessMsg(s, i, m, env) == EnqueueAt(s, k, m.(src := s.c[i].id))
  {
    FindPeerUnique(s.c, m.dst, k);
    forall j | 0 <= j < |s.c| && j != k
      ensures !(s.c[j].Peer() && s.c[j].id == m.dst)
    {
      if j < k && s.c[j].Peer() { assert s.c[j].id != s.c[k].id; }
    }
  }

  /** The same in every reachable state of every run. */
  lemma UniqueDeliveryInRuns(r: seq<Srv>, es: seq<Event>, lfd: int, cfg: Config, file: Option<seq<byte>>, n: nat,
          i: nat, m: Msg, env: Env, k: nat)
    requires Run(r, es, lfd, cfg) && Initial(r[0], file, lfd) && NeverWraps(r) && n <= |es|
    requires i < |r[n].c| && r[n].c[i].Peer() && m.dst != 0 && m.dst != BROADCAST && Forwardable(m.mtype)
    requires k < |r[n].c| && r[n].c[k].Peer() && r[n].c[k].id == m.dst
    ensures forall j | 0 <= j < |r[n].c| && j != k :: !(r[n].c[j].Peer() && r[n].c[j].id == m.dst)
    ensures ProcessMsg(r[n], i, m, env) == EnqueueAt(r[n], k, m.(src := r[n].c[i].id))
  {
    hide Initial, FdInv, Step, Unwrapped, DbBelow, SlotBelow, ProcessMsg, EnqueueAt;
    assert r[0] in r;
    InitialPeers(r[0], file, lfd);
    RunPeers(r, es, lfd, cfg, n);
    UniqueDelivery(r[n], i, m, env, k);
  }

  /** Without such a peer only the sender hears of it: an error of the same family and transaction that
      carries the absent peer's id as its source. */
  lemma Misdirected(s: Srv, i: nat, m: Msg, env: Env)
    requires i < |s.c| && s.c[i].Peer() && m.dst != 0 && m.dst != BROADCAST
    requires forall j | 0 <= j < |s.c| :: !(s.c[j].Peer() && s.c[j].id == m.dst)
    ensures exists reply: Msg :: ProcessMsg(s, i, m, env) == EnqueueAt(s, i, reply)
              && reply.mtype == ToErr(m.mtype) && reply.trf == m.trf && reply.src == m.dst && reply.dst == s.c[i].id
  {
    var reply := Err(m.(src := s.c[i].id), SC_MISDIRECTED_REQUEST, env);
    assert ProcessMsg(s, i, m, env) == EnqueueAt(s, i, reply);
  }

  // ----- one outcome per message -----

  /** The key by which clients match a response to a pending request. */
  ghost predicate Answers(reply: Msg, m: Msg) {
    && reply.src == m.dst && reply.dst == m.src && reply.trf == m.trf
    && (reply.mtype == ToRes(m.mtype) || reply.mtype == ToErr(m.mtype))
  }

  lemma ServerReplies(s: Srv, i: nat, m: Msg, env: Env)
    requires i < |s.c|
    ensures var (s', reply) := ServerMsg(s, i, m, env);
            && (reply.Some? ==> Answers(reply.value, m))
            && (IsReq(m.mtype) && !s'.dead ==> reply.Some?)
            && (reply.Some? && !IsReq(m.mtype) ==> reply.value.mtype == ToErr(m.mtype))
  {
    hide Register, DropAccount, Login, Auth, Logout, Peerlist, Answers, Err, Response, AddAttr;
    AnyReply(m, env);
    AccountReplies(s, i, m, env);
    LoginReplies(s, i, m, env);
    OtherReplies(s, i, m, env);
  }

  lemma AccountReplies(s: Srv, i: nat, m: Msg, env: Env)
    requires i < |s.c|
    ensures var r := Register(s, i, m, env).1; r.Some? && Answers(r.value, m)
    ensures var r := DropAccount(s, i, m, env).1; r.Some? && Answers(r.value, m)
  {
    hide DropEntry, AddEntry, First, NameOf, CStr, Answers, ServerSpec.Ok, Err;
    AnyReply(m, env);
  }

  lemma OtherReplies(s: Srv, i: nat, m: Msg, env: Env)
    requires i < |s.c|
    ensures var (s', r) := Auth(s, i, m, env); (r.Some? ==> Answers(r.value, m)) && (r.None? ==> s'.dead)
    ensures var r := Logout(s, i, m, env).1; r.Some? && Answers(r.value, m)
    ensures var (s', r) := Peerlist(s, m, env); (r.Some? ==> Answers(r.value, m)) && (r.None? ==> s'.dead)
  {
    hide First, CloseDoomed, CStr, Answers, ServerSpec.Ok, Err, Response, EncAttrs, PeerAttrs;
    AnyReply(m, env);
  }

  /** The forms of the server's replies. */
  lemma AnyReply(m: Msg, env: Env)
    ensures Answers(ServerSpec.Ok(m, env), m) && Answers(AddAttr(Response(m, env.ts), OK, []), m)
    ensures forall ec :: Answers(Err(m, ec, env), m) && Err(m, ec, env).mtype == ToErr(m.mtype)
    ensures forall pay :: Answers(Response(m, env.ts).(pay := pay), m)
  {
    hide EncAttr;
  }

  lemma LoginReplies(s: Srv, i: nat, m: Msg, env: Env)
    requires i < |s.c|
    ensures var (s', reply) := Login(s, i, m, env);
            reply.Some? && Answers(reply.value, m)
  {
    hide EncAttr, LookupName, GetTempId, NameInUse, First;
  }

  /** The messages waiting for slot `j`. */
  function Queue(s: Srv, j: nat): seq<Msg>
    requires j < |s.c|
  {
    s.c[j].tx.q
  }

  /** No queue changes, except that slots may close. */
  ghost predicate QueuesKept(s: Srv, s': Srv) {
    |s'.c| == |s.c| && forall j | 0 <= j < |s.c| :: Queue(s', j) == Queue(s, j) || !s'.c[j].Open()
  }

  /** Exactly one queue, that of slot `k`, grows by exactly one message. */
  ghost predicate OneQueueGrows(s: Srv, s': Srv, k: nat, x: Msg) {
    && k < |s.c| == |s'.c| && Queue(s', k) == Queue(s, k) + [x]
    && forall j | 0 <= j < |s.c| && j != k :: Queue(s', j) == Queue(s, j) || !s'.c[j].Open()
  }

  lemma DispatchQueues(s: Srv, i: nat, m: Msg, env: Env)
    requires i < |s.c| && s.c[i].Open()
    ensures var (s', reply) := Dispatch(s, i, m, env);
            && |s'.c| == |s.c| && s'.c[i].Open()
            && ((QueuesKept(s, s') && Queue(s', i) == Queue(s, i))
                || (reply.None? && exists k :: OneQueueGrows(s, s', k, m)))
            && (reply.Some? ==> QueuesKept(s, s') && Queue(s', i) == Queue(s, i) && Answers(reply.value, m))
            && (IsReq(m.mtype) && !s'.dead && reply.None? ==> exists k :: OneQueueGrows(s, s', k, m))
  {
    hide ServerMsg, EncAttr, CloseDoomed;
    var (s', reply) := Dispatch(s, i, m, env);
    if m.dst == 0 {
      ServerReplies(s, i, m, env);
      ServerMsgRelabels(s, i, m, env);
      CloseDoomedSpares(s, i, s.c[i].id);
      assert forall j | 0 <= j < |s.c| && j != i :: s'.c[j] == s.c[j] || s'.c[j] == CLOSED;
    } else if m.dst != BROADCAST {
      var k := FindPeer(s.c, m.dst);
      if s.c[i].st == AuthOk && k < |s.c| && Forwardable(m.mtype) {
        assert OneQueueGrows(s, s', k, m);
      }
    }
  }

  /** One outcome per message.  Unless the server dies, a request is put into exactly one queue, once:
      forwarded as it is (with the sender's id) or answered to its sender with a reply that its pending
      entry matches.  Any other message is forwarded, answered with an error, or dropped. */
  lemma OneOutcome(s: Srv, i: nat, m: Msg, env: Env)
    requires i < |s.c| && s.c[i].Open()
    ensures var s' := ProcessMsg(s, i, m, env);
            var sent := Stamp(s.c[i], m);
            || s'.dead
            || (exists k :: OneQueueGrows(s, s', k, sent))
            || (exists reply :: OneQueueGrows(s, s', i, reply) && Answers(reply, sent))
            || (!IsReq(m.mtype) && QueuesKept(s, s'))
  {
    hide Dispatch, EncAttr;
    var sent := Stamp(s.c[i], m);
    DispatchQueues(s, i, sent, env);
    var (s1, reply) := Dispatch(s, i, sent, env);
    var s' := ProcessMsg(s, i, m, env);
    if reply.Some? {
      assert forall j | 0 <= j < |s1.c| && j != i :: s'.c[j] == s1.c[j];
      assert OneQueueGrows(s, s', i, reply.value);
    }
  }

  // ----- the list of peers -----

  /** The pairs a client prints from a list of attributes. */
  function DecodePeers(l: seq<Attr>): seq<(u64, seq<byte>)> {
    if |l| >= 2 && l[0].t == PEERID && l[1].t == PEERNAME
    then [(U64Of(l[0].val), CStr(l[1].val))] + DecodePeers(l[2..])
    else []
  }

  function Peers(c: seq<Client>): seq<(u64, seq<byte>)> {
    if c == [] then []
    else var p := c[|c| - 1]; Peers(c[..|c| - 1]) + if p.Peer() then [(p.id, NameOf(p))] else []
  }

  lemma {:induction false} DecodePeersAppend(l: seq<Attr>, id: u64, name: seq<byte>)
    requires 0 !in name && |l| % 2 == 0
    requires forall j | 0 <= j < |l| :: l[j].t == if j % 2 == 0 then PEERID else PEERNAME
    ensures DecodePeers(l + [Attr(PEERID, Be(id, 8)), Attr(PEERNAME, name + [0])]) == DecodePeers(l) + [(id, name)]
    decreases |l|
  {
    hide EncAttr, CStr, U64Of;
    var two := [Attr(PEERID, Be(id, 8)), Attr(PEERNAME, name + [0])];
    if l == [] {
      assert l + two == two && two[2..] == [];
      U64OfBe(id);
      CStrTerminated(name, []);
      assert name + [0] + [] == name + [0];
    } else {
      assert (l + two)[2..] == l[2..] + two;
      assert (l + two)[0] == l[0] && (l + two)[1] == l[1];
      DecodePeersAppend(l[2..], id, name);
    }
  }

  lemma AlternatesOn(l: seq<Attr>, id: seq<byte>, name: seq<byte>)
    requires |l| % 2 == 0 && forall j | 0 <= j < |l| :: l[j].t == if j % 2 == 0 then PEERID else PEERNAME
    ensures var r := l + [Attr(PEERID, id), Attr(PEERNAME, name)];
            |r| % 2 == 0 && forall j | 0 <= j < |r| :: r[j].t == if j % 2 == 0 then PEERID else PEERNAME
  {}

  lemma {:induction false} PeersDecoded(c: seq<Client>)
    requires forall x <- c :: 0 !in NameOf(x)
    ensures var l := PeerAttrs(c);
            && |l| % 2 == 0 && (forall j | 0 <= j < |l| :: l[j].t == if j % 2 == 0 then PEERID else PEERNAME)
            && DecodePeers(l) == Peers(c)
  {
    if c != [] {
      hide Be, DecodePeers;
      var front, p := c[..|c| - 1], c[|c| - 1];
      PeersDecoded(front);
      assert p in c;
      if p.Peer() {
        DecodePeersAppend(PeerAttrs(front), p.id, NameOf(p));
        hide NameOf;
        var l := PeerAttrs(front);
        assert PeerAttrs(c) == l + [Attr(PEERID, Be(p.id, 8)), Attr(PEERNAME, NameOf(p) + [0])];
        AlternatesOn(l, Be(p.id, 8), NameOf(p) + [0]);
      }
    }
  }

  lemma {:induction false} EncodedLength(l: seq<Attr>)
    ensures forall a <- l :: |a.val| <= |EncAttrs(l)|
  {
    if l != [] { EncodedLength(l[..|l| - 1]); }
  }

  /** A client decodes the answer to PEERLIST to exactly the ids and names of the authenticated slots. */
  lemma PeerlistRoundTrip(s: Srv, m: Msg, env: Env)
    requires Peerlist(s, m, env).1.Some? && forall x <- s.c :: 0 !in NameOf(x)
    ensures DecodePeers(Attrs(Peerlist(s, m, env).1.value)) == Peers(s.c)
  {
    hide EncAttr, DecodePeers, Peers, Tlv, PeerAttrs;
    var l := PeerAttrs(s.c);
    EncodedLength(l);
    EncodeDecode(l);
    PeersDecoded(s.c);
  }
}
