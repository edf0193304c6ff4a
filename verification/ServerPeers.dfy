/** The ids of connections that are logged in, whatever the account file holds and whichever saves fail: below
    the counter, and unique among those that are authenticated. */
module ServerPeers {
  import opened Bytes
  import opened Message
  import opened Channel
  import opened UserFile
  import opened UserDb
  import opened UserDbMap
  import opened ServerSpec
  import opened ServerInv
  import opened ServerIds

  ghost predicate DbBelow(d: Db) { 0 < d.nextId && forall e <- d.list :: 0 < e.id < d.nextId }

  ghost predicate SlotBelow(c: Client, n: u64) { c.Open() && c.st in {LoginOk, AuthOk} ==> 0 < c.id < n }

  ghost predicate PeerInv(s: Srv) {
    UniquePeers(s.c) && DbBelow(s.db) && forall x <- s.c :: SlotBelow(x, s.db.nextId)
  }

  /** The counter has not wrapped: it is not 0, and no account in memory, or in the file that is to be loaded,
      carries the last id of the range. */
  ghost predicate Unwrapped(s: Srv) { 0 < s.db.nextId && NoLastId(Load(s.db).list) }

  ghost predicate NoLastId(l: seq<Entry>) { forall e <- l :: e.id < MAX_ID }

  // ----- the database -----

  lemma AddBelow_(d: Db, id: u64, name: seq<byte>, key: seq<byte>)
    requires DbBelow(d) && NoLastId(AddEntry_(d, id, name, key).0.list)
    ensures var d' := AddEntry_(d, id, name, key).0;
            DbBelow(d') && d.nextId <= d'.nextId && forall e <- d.list :: e in d'.list
  {
    hide NameIsValid, Lookup;
    var (d', added) := AddEntry_(d, id, name, key);
    if added {
      assert d'.list[0] in d'.list;
      assert forall e <- d'.list :: e == d'.list[0] || e in d.list;
      assert forall j | 0 <= j < |d.list| :: d'.list[j + 1] == d.list[j];
    }
  }

  lemma {:induction false} KeepsEntries(d: Db, text: seq<byte>)
    ensures forall e <- d.list :: e in LoadLines(d, text).list
    decreases |text|
  {
    if text != [] {
      var chunk := Fgets(text, LINE_SIZE);
      var d1 := LoadLine(d, chunk);
      if d1 != d { assert forall j | 0 <= j < |d.list| :: d1.list[j + 1] == d.list[j]; }
      KeepsEntries(d1, text[|chunk|..]);
    }
  }

  lemma {:induction false} LinesBelow(d: Db, text: seq<byte>)
    requires DbBelow(d) && NoLastId(LoadLines(d, text).list)
    ensures var d' := LoadLines(d, text);
            DbBelow(d') && d.nextId <= d'.nextId
    decreases |text|
  {
    hide DbBelow, AddEntry_, Fgets;
    if text != [] {
      var chunk := Fgets(text, LINE_SIZE);
      var d1 := LoadLine(d, chunk);
      KeepsEntries(d1, text[|chunk|..]);
      if ParseLine(chunk).Some? {
        var e := ParseLine(chunk).value;
        AddBelow_(d, e.id, e.name, e.key);
      }
      LinesBelow(d1, text[|chunk|..]);
    }
  }

  /** Loading never lowers the counter. */
  lemma LoadBelow(d: Db)
    requires DbBelow(d) && NoLastId(Load(d).list)
    ensures DbBelow(Load(d)) && d.nextId <= Load(d).nextId
  {
    if d.list == [] && d.file.Some? { LinesBelow(d, d.file.value); }
    hide LoadLines;
  }

  lemma DropBelow(d: Db, name: seq<byte>, ok: bool)
    requires DbBelow(d) && NoLastId(Load(d).list)
    ensures var d' := DropEntry(d, name, ok).0;
            DbBelow(d') && d.nextId <= d'.nextId
  {
    LoadBelow(d);
    hide Load;
  }

  /** What an added account leaves in memory includes whatever was loaded for it. */
  lemma AddBelow(d: Db, id: u64, name: seq<byte>, key: seq<byte>, ok: bool)
    requires DbBelow(d) && NoLastId(AddEntry(d, id, name, key, ok).0.list)
    ensures var d' := AddEntry(d, id, name, key, ok).0;
            DbBelow(d') && d.nextId <= d'.nextId
  {
    hide Load, NameIsValid, Lookup;
    var l := Load(d);
    var d1 := AddEntry_(l, id, name, key).0;
    if d1 != l { assert forall j | 0 <= j < |l.list| :: d1.list[j + 1] == l.list[j]; }
    assert forall e <- l.list :: e in d1.list;
    LoadBelow(d);
    AddBelow_(l, id, name, key);
  }

  lemma SettledIn(d: Db)
    ensures NoLastId(Load(d).list) ==> NoLastId(d.list)
  {
    hide LoadLines;
  }

  // ----- slots -----

  ghost predicate Raised(s: Srv, s': Srv) { s.db.nextId <= s'.db.nextId }

  /** Only the database changes. */
  lemma DbChanged(s: Srv, d: Db)
    requires PeerInv(s) && DbBelow(d) && s.db.nextId <= d.nextId
    ensures PeerInv(s.(db := d))
  {
    hide UniquePeers;
  }

  /** Slots keep who they are, close or drop out of their login. */
  lemma SlotsKept(s: Srv, s': Srv)
    requires PeerInv(s) && s'.db == s.db && |s'.c| == |s.c|
    requires forall j | 0 <= j < |s.c| :: KeepsPeer(s.c[j], s'.c[j])
    ensures PeerInv(s')
  {
    hide DbBelow;
    forall y <- s'.c
      ensures SlotBelow(y, s'.db.nextId)
    {
      var j :| 0 <= j < |s'.c| && s'.c[j] == y;
      assert s.c[j] in s.c;
    }
  }

  ghost predicate KeepsPeer(x: Client, y: Client) {
    && (y.Peer() ==> x.Peer() && y.id == x.id)
    && (y.Open() && y.st == LoginOk ==> x.Open() && x.st == LoginOk && y.id == x.id)
  }

  lemma OneSlotKept(s: Srv, s': Srv, i: nat)
    requires PeerInv(s) && s'.db == s.db && i < |s.c| == |s'.c| && s'.c == s.c[i := s'.c[i]]
    requires KeepsPeer(s.c[i], s'.c[i])
    ensures PeerInv(s')
  {
    hide PeerInv;
    assert forall j | 0 <= j < |s.c| && j != i :: s'.c[j] == s.c[j];
    SlotsKept(s, s');
  }

  /** One slot logs in: with an account's id, not yet authenticated, or with the id of the counter. */
  lemma LoggedIn(s: Srv, i: nat, x: Client)
    requires PeerInv(s) && i < |s.c| && SlotBelow(x, s.db.nextId)
    requires x.Peer() ==> forall j | 0 <= j < |s.c| && j != i && s.c[j].Peer() :: s.c[j].id != x.id
    ensures PeerInv(s.(c := s.c[i := x]))
  {
    hide DbBelow, SlotBelow;
    var c' := s.c[i := x];
    assert forall j | 0 <= j < |s.c| :: c'[j] == if j == i then x else s.c[j];
  }

  // ----- messages to the server -----

  lemma RegisterPeers(s: Srv, i: nat, m: Msg, env: Env)
    requires PeerInv(s) && Unwrapped(s) && i < |s.c| && Unwrapped(Register(s, i, m, env).0)
    ensures var s' := Register(s, i, m, env).0;
            PeerInv(s') && Raised(s, s')
  {
    hide First, Err, ServerSpec.Ok, DropEntry, AddEntry, DbBelow, UniquePeers, NoLastId, Load;
    if s.c[i].st == AuthOk && First(m, PUBKEY).Some? {
      var d1 := DropEntry(s.db, NameOf(s.c[i]), env.dropOk).0;
      var key := PLAINTEXT + CStr(First(m, PUBKEY).value);
      DropBelow(s.db, NameOf(s.c[i]), env.dropOk);
      SettledIn(Register(s, i, m, env).0.db);
      AddBelow(d1, s.c[i].id, NameOf(s.c[i]), key, env.addOk);
      DbChanged(s, AddEntry(d1, s.c[i].id, NameOf(s.c[i]), key, env.addOk).0);
    }
  }

  lemma DropPeers(s: Srv, i: nat, m: Msg, env: Env)
    requires PeerInv(s) && Unwrapped(s) && i < |s.c|
    ensures var s' := DropAccount(s, i, m, env).0;
            PeerInv(s') && Raised(s, s')
  {
    hide Err, ServerSpec.Ok, DropEntry, DbBelow, UniquePeers, NoLastId, Load;
    if s.c[i].st == AuthOk {
      DropBelow(s.db, NameOf(s.c[i]), env.dropOk);
      DbChanged(s, DropEntry(s.db, NameOf(s.c[i]), env.dropOk).0);
    }
  }

  lemma LoginPeers(s: Srv, i: nat, m: Msg, env: Env)
    requires PeerInv(s) && Unwrapped(s) && i < |s.c| && s.c[i].Open() && Unwrapped(Login(s, i, m, env).0)
    ensures var s' := Login(s, i, m, env).0;
            PeerInv(s') && Raised(s, s')
  {
    hide First, Err, ServerSpec.Ok, UniquePeers, NoLastId, Load, NameInUse, AddAttr, Response, PeerInv;
    var c := s.c[i];
    if c.st == PreLogin && First(m, USERNAME).Some? {
      var name := CStr(First(m, USERNAME).value);
      var l := Load(s.db);
      assert DbBelow(s.db) by { Below(s); }
      LoadBelow(s.db);
      LoadTwice(s.db);
      DbChanged(s, l);
      var s1 := s.(db := l);
      var pu := Lookup(l.list, name);
      if pu.Some? {
        assert pu.value in l.list;
        var x := c.(st := LoginOk, id := pu.value.id, name := Some(pu.value.name));
        LoggedIn(s1, i, x);
        LoggedIn(s1, i, x.(key := Some(pu.value.key)));
      } else if !NameInUse(s.c, name) {
        TemporaryPeers(s1, i, name);
      }
    }
  }

  lemma Below(s: Srv)
    requires PeerInv(s)
    ensures DbBelow(s.db) && UniquePeers(s.c)
  {}

  lemma LoadTwice(d: Db)
    ensures Load(Load(d)) == Load(d)
  {
    LoadSettles(d);
  }

  lemma TemporaryPeers(s: Srv, i: nat, name: seq<byte>)
    requires PeerInv(s) && i < |s.c|
    requires s.db.nextId < MAX_ID
    ensures var n := s.db.nextId;
            var x := s.c[i].(st := AuthOk, id := n, name := Some(name), key := None);
            PeerInv(s.(db := s.db.(nextId := n + 1), c := s.c[i := x]))
  {
    hide UniquePeers;
    var n := s.db.nextId;
    DbChanged(s, s.db.(nextId := n + 1));
    var x := s.c[i].(st := AuthOk, id := n, name := Some(name), key := None);
    forall j | 0 <= j < |s.c| && j != i && s.c[j].Peer()
      ensures s.c[j].id != n
    {
      assert s.c[j] in s.c;
    }
    LoggedIn(s.(db := s.db.(nextId := n + 1)), i, x);
  }

  lemma AuthPeers(s: Srv, i: nat, m: Msg, env: Env)
    requires PeerInv(s) && i < |s.c| && s.c[i].Open()
    ensures var s' := Auth(s, i, m, env).0;
            PeerInv(s') && Raised(s, s')
  {
    hide First, Err, ServerSpec.Ok, PeerInv, CloseDoomed;
    CloseDoomedSpares(s, i, s.c[i].id);
    var s' := Auth(s, i, m, env).0;
    if s'.c[i].st != AuthOk {
      SlotsKept(s, s');
    } else {
      TakesOver(s, i);
    }
  }

  /** Authenticating closes every other open slot with the id. */
  lemma TakesOver(s: Srv, i: nat)
    requires PeerInv(s) && i < |s.c| && s.c[i].Open() && s.c[i].st == LoginOk
    ensures var s1 := CloseDoomed(s, i, s.c[i].id);
            PeerInv(s1.(c := s1.c[i := s.c[i].(st := AuthOk)]))
  {
    hide PeerInv, CloseDoomed;
    CloseDoomedSpares(s, i, s.c[i].id);
    var s1 := CloseDoomed(s, i, s.c[i].id);
    SlotsKept(s, s1);
    Here(s, i);
    LoggedIn(s1, i, s.c[i].(st := AuthOk));
  }

  lemma Here(s: Srv, i: nat)
    requires PeerInv(s) && i < |s.c|
    ensures SlotBelow(s.c[i], s.db.nextId)
  {
    assert s.c[i] in s.c;
  }

  lemma LogoutPeers(s: Srv, i: nat, m: Msg, env: Env)
    requires PeerInv(s) && i < |s.c|
    ensures var s' := Logout(s, i, m, env).0;
            PeerInv(s') && Raised(s, s')
  {
    hide PeerInv, ServerSpec.Ok;
    OneSlotKept(s, Logout(s, i, m, env).0, i);
  }

  lemma PeerlistPeers(s: Srv, m: Msg, env: Env)
    requires PeerInv(s)
    ensures var s' := Peerlist(s, m, env).0;
            PeerInv(s') && Raised(s, s')
  {
    hide PeerAttrs, EncAttrs, Response, UniquePeers, DbBelow, SlotBelow;
  }

  lemma ServerMsgPeers(s: Srv, i: nat, m: Msg, env: Env)
    requires PeerInv(s) && Unwrapped(s) && i < |s.c| && s.c[i].Open() && Unwrapped(ServerMsg(s, i, m, env).0)
    ensures var s' := ServerMsg(s, i, m, env).0;
            PeerInv(s') && Raised(s, s')
  {
    hide PeerInv, Unwrapped, Err, First, EncAttr, Register, DropAccount, Login, Auth, Logout, Peerlist;
    if m.mtype == REGISTER_REQ { RegisterPeers(s, i, m, env); }
    DropPeers(s, i, m, env);
    if m.mtype == LOGIN_REQ { LoginPeers(s, i, m, env); }
    AuthPeers(s, i, m, env);
    LogoutPeers(s, i, m, env);
    PeerlistPeers(s, m, env);
  }

  // ----- every step -----

  lemma EnqueuePeers(s: Srv, i: nat, m: Msg)
    requires PeerInv(s) && i < |s.c|
    ensures PeerInv(EnqueueAt(s, i, m))
  {
    hide PeerInv, Enqueue;
    OneSlotKept(s, EnqueueAt(s, i, m), i);
  }

  lemma ProcessPeers(s: Srv, i: nat, m: Msg, env: Env)
    requires PeerInv(s) && Unwrapped(s) && i < |s.c| && s.c[i].Open() && Unwrapped(ProcessMsg(s, i, m, env))
    ensures PeerInv(ProcessMsg(s, i, m, env)) && Raised(s, ProcessMsg(s, i, m, env))
  {
    hide ServerMsg, PeerInv, Err, Load, NoLastId;
    var m' := Stamp(s.c[i], m);
    var (s', reply) := Dispatch(s, i, m', env);
    if m.dst == 0 {
      ServerMsgPeers(s, i, m', env);
    } else if m.dst != BROADCAST {
      var k := FindPeer(s.c, m.dst);
      if k < |s.c| { EnqueuePeers(s, k, m'); }
    }
    if reply.Some? { EnqueuePeers(s', i, reply.value); }
  }

  lemma InputPeers(s: Srv, i: nat, now: int, chunk: seq<byte>, env: Env, cfg: Config)
    requires PeerInv(s) && Unwrapped(s) && i < |s.c| && s.c[i].Open()
    requires var rx := ForRead(s, i, now, cfg).c[i].rbuf.value; rx.Ok() && 0 < |chunk| <= rx.size - |rx.got|
    requires Unwrapped(ReadAt(ForRead(s, i, now, cfg), i, chunk, env))
    ensures var s' := ReadAt(ForRead(s, i, now, cfg), i, chunk, env);
            PeerInv(s') && Raised(s, s')
  {
    hide PeerInv, ProcessMsg, Feed, Load, NoLastId;
    var s1 := ForRead(s, i, now, cfg);
    OneSlotKept(s, s1, i);
    match Feed(s1.c[i].rbuf.value, chunk)
    case Died => SlotsKept(s1, s1.(dead := true));
    case Pending(rx) => OneSlotKept(s1, s1.(c := s1.c[i := s1.c[i].(rbuf := Some(rx))]), i);
    case Complete(m) =>
      var s2 := s1.(c := s1.c[i := s1.c[i].(rbuf := None)]);
      OneSlotKept(s1, s2, i);
      ProcessPeers(s2, i, m, env);
  }

  lemma UpkeepPeers(s: Srv, s': Srv, now: int, lfd: int, cfg: Config)
    requires PeerInv(s) && Upkept(s, s', now, lfd, cfg)
    ensures PeerInv(s')
  {
    hide Survivors, DbBelow;
    var l := Survivors(s.c, now, cfg);
    SurvivorIds(s.c, now, cfg);
    PrefixIds(s'.c, l);
    hide UniquePeers;
    forall y <- s'.c
      ensures SlotBelow(y, s'.db.nextId)
    {
      if y.Open() {
        var x :| x in s.c && y == x.(rbuf := y.rbuf) && x.Open();
      }
    }
  }

  /** Every step keeps the ids of connections below the counter and those of peers unique, and never lowers
      the counter. */
  lemma StepKeepsPeers(s: Srv, e: Event, s': Srv, lfd: int, cfg: Config)
    requires PeerInv(s) && Unwrapped(s) && Unwrapped(s') && Step(s, e, s', lfd, cfg)
    ensures PeerInv(s') && Raised(s, s')
  {
    hide PeerInv, Unwrapped, Upkept, ReadAt, Written;
    match e
    case Connect(fd, nonblock, now) => if s' != s { OneSlotKept(s, s', FindFree(s.c)); }
    case Input(i, now, chunk, env) => InputPeers(s, i, now, chunk, env, cfg);
    case NoInput(i, now) => OneSlotKept(s, s', i);
    case Output(i, n, now) => OneSlotKept(s, s', i);
    case NoOutput(i, now) => OneSlotKept(s, s', i);
    case Hangup(i) => OneSlotKept(s, s', i);
    case Upkeep(now) =>
      UpkeepPeers(s, s', now, lfd, cfg);
      SameCounter(s, s', now, lfd, cfg);
  }

  lemma SameCounter(s: Srv, s': Srv, now: int, lfd: int, cfg: Config)
    requires Upkept(s, s', now, lfd, cfg)
    ensures s'.db == s.db
  {}
}
