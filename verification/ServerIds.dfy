/** Who is who: ids and names across slots and accounts, kept by every step of the server. */
module ServerIds {
  import opened Bytes
  import opened Message
  import opened Channel
  import opened UserFile
  import opened UserDb
  import opened UserDbMap
  import opened ServerSpec
  import opened ServerInv

  type Binding = (u64, seq<byte>)

  function SlotBindings(c: seq<Client>): set<Binding> {
    set j | 0 <= j < |c| && c[j].Open() && c[j].name.Some? :: (c[j].id, c[j].name.value)
  }

  function AccountBindings(l: seq<Entry>): set<Binding> {
    set j | 0 <= j < |l| :: (l[j].id, l[j].name)
  }

  /** Every id and name in use together, by an open slot or an account. */
  function Bindings(s: Srv): set<Binding> { SlotBindings(s.c) + AccountBindings(s.db.list) }

  /** One name per id and one id per name. */
  ghost predicate OneToOne(b: set<Binding>) {
    forall p, q | p in b && q in b :: p.0 == q.0 <==> p.1 == q.1
  }

  ghost predicate Issued(b: set<Binding>, nextId: u64) {
    forall p | p in b :: 0 < p.0 < nextId
  }

  /** No two open authenticated slots share an id. */
  ghost predicate UniquePeers(c: seq<Client>) {
    forall i, j | 0 <= i < j < |c| && c[i].Peer() && c[j].Peer() :: c[i].id != c[j].id
  }

  ghost predicate SlotOk(c: Client) {
    c.Open() ==>
      && c.st != Invalid
      && (c.name.None? <==> c.id == 0)
      && (c.st in {LoginOk, AuthOk} ==> c.name.Some?)
  }

  ghost predicate DbOk(d: Db) {
    Distinct(d.list) && Settled(d)
  }

  ghost predicate IdInv(s: Srv) {
    && OneToOne(Bindings(s)) && Issued(Bindings(s), s.db.nextId) && UniquePeers(s.c)
    && (forall x <- s.c :: SlotOk(x))
    && DbOk(s.db)
  }

  /** Nothing is bound but what was bound before, and ids not issued before. */
  ghost predicate Grows(s: Srv, s': Srv) {
    && s.db.nextId <= s'.db.nextId <= s.db.nextId + 1
    && forall p | p in Bindings(s') :: p in Bindings(s) || p.0 == s.db.nextId
  }

  lemma SubsetOneToOne(b: set<Binding>, b': set<Binding>, n: u64)
    requires b' <= b && OneToOne(b) && Issued(b, n)
    ensures OneToOne(b') && Issued(b', n)
  {}

  lemma BindFresh(b: set<Binding>, b': set<Binding>, n: u64, name: seq<byte>)
    requires b' <= b + {(n, name)} && OneToOne(b) && Issued(b, n) && 0 < n < MAX_ID
    requires forall p | p in b :: p.1 != name
    ensures OneToOne(b') && Issued(b', n + 1)
  {}

  // ----- slots -----

  lemma SlotBinds(c: seq<Client>, j: nat)
    requires j < |c| && c[j].Open() && c[j].name.Some?
    ensures (c[j].id, c[j].name.value) in SlotBindings(c)
  {}

  lemma AccountBinds(l: seq<Entry>, k: nat)
    requires k < |l|
    ensures (l[k].id, l[k].name) in AccountBindings(l)
  {}

  /** Replacing one slot adds at most its own binding. */
  lemma ReplaceBindings(c: seq<Client>, i: nat, x: Client)
    requires i < |c|
    ensures forall p | p in SlotBindings(c[i := x]) ::
              p in SlotBindings(c) || (x.Open() && x.name.Some? && p == (x.id, x.name.value))
  {
    var c' := c[i := x];
    assert forall j | 0 <= j < |c| :: c'[j] == if j == i then x else c[j];
  }

  /** A slot that changes nothing about who it is, or closes. */
  ghost predicate SameIdentity(x: Client, y: Client) {
    y.Open() ==> x.Open() && y.id == x.id && y.name == x.name && (y.st == AuthOk ==> x.st == AuthOk)
  }

  /** Slots keep their identity, close or drop out of authentication. */
  lemma KeepIdentities(s: Srv, s': Srv)
    requires IdInv(s) && |s'.c| == |s.c| && s'.db == s.db
    requires forall j | 0 <= j < |s.c| :: SameIdentity(s.c[j], s'.c[j]) && SlotOk(s'.c[j])
    ensures IdInv(s') && Grows(s, s')
  {
    assert SlotBindings(s'.c) <= SlotBindings(s.c);
    SubsetOneToOne(Bindings(s), Bindings(s'), s.db.nextId);
  }

  lemma EnqueueKeepsIds(s: Srv, i: nat, m: Msg)
    requires IdInv(s) && i < |s.c|
    ensures IdInv(EnqueueAt(s, i, m)) && Grows(s, EnqueueAt(s, i, m))
  {
    var s' := EnqueueAt(s, i, m);
    assert forall j | 0 <= j < |s.c| :: SlotOk(s.c[j]);
    assert forall j | 0 <= j < |s.c| && j != i :: s'.c[j] == s.c[j];
    KeepIdentities(s, s');
  }

  lemma LogoutKeepsIds(s: Srv, i: nat, m: Msg, env: Env)
    requires IdInv(s) && i < |s.c| && s.c[i].Open()
    ensures var s' := Logout(s, i, m, env).0;
            IdInv(s') && Grows(s, s')
  {
    hide ServerSpec.Ok, OneToOne, Issued, DbOk;
    var s' := Logout(s, i, m, env).0;
    var x := s'.c[i];
    ReplaceBindings(s.c, i, x);
    assert SlotBindings(s'.c) <= SlotBindings(s.c);
    SubsetOneToOne(Bindings(s), Bindings(s'), s.db.nextId);
    assert forall j | 0 <= j < |s.c| && j != i :: s'.c[j] == s.c[j];
    assert forall j | 0 <= j < |s.c| :: SlotOk(s.c[j]) && SlotOk(s'.c[j]);
  }

  // ----- authentication -----

  lemma AuthKeepsIds(s: Srv, i: nat, m: Msg, env: Env)
    requires IdInv(s) && i < |s.c| && s.c[i].Open()
    ensures var s' := Auth(s, i, m, env).0;
            IdInv(s') && Grows(s, s')
  {
    hide First, Err, ServerSpec.Ok, DbOk, OneToOne, Issued, CloseDoomed;
    var s' := Auth(s, i, m, env).0;
    CloseDoomedSpares(s, i, s.c[i].id);
    assert SlotOk(s.c[i]);
    if s'.c[i].st != AuthOk {
      assert forall j | 0 <= j < |s.c| && j != i :: s'.c[j] == s.c[j];
      assert forall j | 0 <= j < |s.c| :: SlotOk(s.c[j]);
      KeepIdentities(s, s');
    } else {
      AuthTakesOver(s, s', i);
    }
  }

  /** Authenticating closes every other slot with the id, so the id stays unique among peers. */
  lemma AuthTakesOver(s: Srv, s': Srv, i: nat)
    requires IdInv(s) && i < |s.c| && s.c[i].Open() && s.c[i].st == LoginOk
    requires var s1 := CloseDoomed(s, i, s.c[i].id);
             s' == s1.(c := s1.c[i := s.c[i].(st := AuthOk)])
    ensures IdInv(s') && Grows(s, s')
  {
    hide DbOk, OneToOne, Issued;
    var id := s.c[i].id;
    CloseDoomedSpares(s, i, id);
    assert forall j | 0 <= j < |s.c| && j != i :: s'.c[j] == if Doomed(s.c, i, id, j) then CLOSED else s.c[j];
    assert SlotBindings(s'.c) <= SlotBindings(s.c);
    SubsetOneToOne(Bindings(s), Bindings(s'), s.db.nextId);
    assert forall j | 0 <= j < |s.c| :: SlotOk(s.c[j]);
    assert forall j | 0 <= j < |s.c| && j != i && s'.c[j].Open() :: s'.c[j].id != id;
  }

  // ----- login -----

  lemma LoginKeepsIds(s: Srv, i: nat, m: Msg, env: Env)
    requires IdInv(s) && i < |s.c| && s.c[i].Open() && s.db.nextId < MAX_ID && 0 < s.db.nextId
    ensures var s' := Login(s, i, m, env).0;
            IdInv(s') && Grows(s, s')
  {
    hide First, Err, ServerSpec.Ok, DbOk, IdInv, Grows, LookupName, GetTempId, NameInUse;
    var c := s.c[i];
    if c.st == PreLogin && First(m, USERNAME).Some? {
      var name := CStr(First(m, USERNAME).value);
      SettledLookup(s, name);
      var pu := Lookup(s.db.list, name);
      if pu.Some? {
        LoginRegistered(s, i, pu.value, HeldKey(c, pu.value));
      } else if !NameInUse(s.c, name) {
        LoginTemporary(s, i, name);
      } else {
        Unchanged(s);
      }
    } else {
      Unchanged(s);
    }
  }

  lemma Unchanged(s: Srv)
    requires IdInv(s)
    ensures Grows(s, s)
  {}

  lemma SettledLookup(s: Srv, name: seq<byte>)
    requires IdInv(s)
    ensures LookupName(s.db, name) == (s.db, Lookup(s.db.list, name))
    ensures s.db.nextId < MAX_ID ==> GetTempId(s.db) == (s.db.(nextId := s.db.nextId + 1), s.db.nextId)
    ensures Lookup(s.db.list, name).Some? ==> Lookup(s.db.list, name).value in s.db.list
  {
    LoadSettles(s.db);
  }

  /** The key a slot holds once its client has named the registered account `u`: that of the account if it
      has the prefix, and otherwise whatever the slot held before. */
  function HeldKey(c: Client, u: Entry): Option<seq<byte>> {
    if PLAINTEXT <= u.key then Some(u.key) else c.key
  }

  /** Whatever key the slot is left with. */
  lemma LoginRegistered(s: Srv, i: nat, u: Entry, key: Option<seq<byte>>)
    requires IdInv(s) && i < |s.c| && s.c[i].Open() && u in s.db.list && s.c[i].st == PreLogin
    ensures var s' := s.(c := s.c[i := s.c[i].(st := LoginOk, id := u.id, name := Some(u.name), key := key)]);
            IdInv(s') && Grows(s, s')
  {
    hide OneToOne, DbOk;
    var x := s.c[i].(st := LoginOk, id := u.id, name := Some(u.name), key := key);
    var s' := s.(c := s.c[i := x]);
    var k :| 0 <= k < |s.db.list| && s.db.list[k] == u;
    AccountBinds(s.db.list, k);
    ReplaceBindings(s.c, i, x);
    assert Bindings(s') <= Bindings(s);
    SubsetOneToOne(Bindings(s), Bindings(s'), s.db.nextId);
    assert forall j | 0 <= j < |s.c| && j != i :: s'.c[j] == s.c[j];
    assert (u.id, u.name) in Bindings(s);
    assert forall j | 0 <= j < |s.c| :: SlotOk(s.c[j]) && SlotOk(s'.c[j]);
  }

  lemma LoginTemporary(s: Srv, i: nat, name: seq<byte>)
    requires IdInv(s) && i < |s.c| && s.c[i].Open() && 0 < s.db.nextId < MAX_ID
    requires Lookup(s.db.list, name).None? && !NameInUse(s.c, name)
    ensures var n := s.db.nextId;
            var x := s.c[i].(st := AuthOk, id := n, name := Some(name), key := None);
            var s' := s.(db := s.db.(nextId := n + 1), c := s.c[i := x]);
            IdInv(s') && Grows(s, s')
  {
    hide OneToOne, Lookup, NameInUse;
    var n := s.db.nextId;
    var x := s.c[i].(st := AuthOk, id := n, name := Some(name), key := None);
    var s' := s.(db := s.db.(nextId := n + 1), c := s.c[i := x]);
    ReplaceBindings(s.c, i, x);
    NameIsNew(s, name);
    BindFresh(Bindings(s), Bindings(s'), n, name);
    assert forall j | 0 <= j < |s.c| && j != i :: s'.c[j] == s.c[j];
    forall j | 0 <= j < |s.c| && j != i && s.c[j].Peer()
      ensures s.c[j].id != n
    {
      assert SlotOk(s.c[j]);
      SlotBinds(s.c, j);
    }
    assert forall j | 0 <= j < |s.c| :: SlotOk(s.c[j]) && SlotOk(s'.c[j]);
  }

  /** A name that is neither registered nor used, in any case, is bound to no id. */
  lemma NameIsNew(s: Srv, name: seq<byte>)
    requires Lookup(s.db.list, name).None? && !NameInUse(s.c, name)
    ensures forall p | p in Bindings(s) :: p.1 != name
  {
    forall p | p in Bindings(s)
      ensures p.1 != name
    {
      if p in SlotBindings(s.c) {
        var j :| 0 <= j < |s.c| && s.c[j].Open() && s.c[j].name.Some? && p == (s.c[j].id, s.c[j].name.value);
        assert !Uses(s.c[j], name);
      }
    }
  }

  // ----- accounts -----

  lemma RegisterKeepsIds(s: Srv, i: nat, m: Msg, env: Env)
    requires IdInv(s) && i < |s.c| && s.c[i].Open() && DropSaved(s.db, env.dropOk)
    ensures var s' := Register(s, i, m, env).0;
            IdInv(s') && Grows(s, s')
  {
    hide First, Err, ServerSpec.Ok, IdInv, Grows, DropEntry, AddEntry;
    if s.c[i].st == AuthOk && First(m, PUBKEY).Some? {
      SlotIsKnown(s, i);
      var key := PLAINTEXT + CStr(First(m, PUBKEY).value);
      var d1 := DropEntry(s.db, NameOf(s.c[i]), env.dropOk).0;
      DropDb(s.db, NameOf(s.c[i]), env.dropOk);
      var d2 := AddEntry(d1, s.c[i].id, NameOf(s.c[i]), key, env.addOk).0;
      AddDb(d1, s.c[i].id, NameOf(s.c[i]), key, env.addOk);
      ReplaceDb(s, d2, (s.c[i].id, NameOf(s.c[i])));
    } else {
      Unchanged(s);
    }
  }

  lemma DropKeepsIds(s: Srv, i: nat, m: Msg, env: Env)
    requires IdInv(s) && i < |s.c| && s.c[i].Open() && DropSaved(s.db, env.dropOk)
    ensures var s' := DropAccount(s, i, m, env).0;
            IdInv(s') && Grows(s, s')
  {
    hide Err, ServerSpec.Ok, IdInv, Grows, DropEntry;
    if s.c[i].st == AuthOk {
      SlotIsKnown(s, i);
      DropDb(s.db, NameOf(s.c[i]), env.dropOk);
      ReplaceDb(s, DropEntry(s.db, NameOf(s.c[i]), env.dropOk).0, (s.c[i].id, NameOf(s.c[i])));
    } else {
      Unchanged(s);
    }
  }

  lemma SlotIsKnown(s: Srv, i: nat)
    requires IdInv(s) && i < |s.c| && s.c[i].Peer()
    ensures (s.c[i].id, NameOf(s.c[i])) in Bindings(s) && DbOk(s.db) && 0 < s.c[i].id < s.db.nextId
  {
    assert SlotOk(s.c[i]);
    SlotBinds(s.c, i);
  }

  lemma DropDb(d: Db, name: seq<byte>, ok: bool)
    requires DbOk(d) && DropSaved(d, ok)
    ensures var d' := DropEntry(d, name, ok).0;
            DbOk(d') && d'.nextId == d.nextId && AccountBindings(d'.list) <= AccountBindings(d.list)
  {
    LoadSettles(d);
    DropRefines(d, name, ok);
    var k := IndexOf(d.list, name);
    if k < |d.list| {
      var l := d.list[..k] + d.list[k + 1..];
      assert forall j | 0 <= j < |l| :: l[j] == d.list[if j < k then j else j + 1];
    }
  }

  lemma AddDb(d: Db, id: u64, name: seq<byte>, key: seq<byte>, ok: bool)
    requires DbOk(d) && 0 < id < d.nextId
    ensures var d' := AddEntry(d, id, name, key, ok).0;
            DbOk(d') && d'.nextId == d.nextId && AccountBindings(d'.list) <= AccountBindings(d.list) + {(id, name)}
  {
    LoadSettles(d);
    AddRefines(d, id, name, key, ok);
    var d' := AddEntry(d, id, name, key, ok).0;
    if d'.list != d.list {
      assert forall j | 0 <= j < |d'.list| :: d'.list[j] == if j == 0 then Entry(id, name, key) else d.list[j - 1];
    }
  }

  /** The database may change as long as it introduces no new binding. */
  lemma ReplaceDb(s: Srv, d: Db, b: Binding)
    requires IdInv(s) && DbOk(d) && d.nextId == s.db.nextId && b in Bindings(s)
    requires AccountBindings(d.list) <= AccountBindings(s.db.list) + {b}
    ensures IdInv(s.(db := d)) && Grows(s, s.(db := d))
  {
    hide OneToOne, Issued, DbOk;
    assert Bindings(s.(db := d)) <= Bindings(s);
    SubsetOneToOne(Bindings(s), Bindings(s.(db := d)), s.db.nextId);
  }

  // ----- every step -----

  lemma ServerMsgKeepsIds(s: Srv, i: nat, m: Msg, env: Env)
    requires IdInv(s) && i < |s.c| && s.c[i].Open() && 0 < s.db.nextId < MAX_ID
    requires DropSaved(s.db, env.dropOk)
    ensures var s' := ServerMsg(s, i, m, env).0;
            IdInv(s') && Grows(s, s')
  {
    hide IdInv, Grows;
    Unchanged(s);
    RegisterKeepsIds(s, i, m, env);
    DropKeepsIds(s, i, m, env);
    LoginKeepsIds(s, i, m, env);
    AuthKeepsIds(s, i, m, env);
    LogoutKeepsIds(s, i, m, env);
    PeerlistKeepsIds(s, m, env);
    ServerMsgIs(s, i, m, env);
    hide *;
  }

  lemma PeerlistKeepsIds(s: Srv, m: Msg, env: Env)
    requires IdInv(s)
    ensures var s' := Peerlist(s, m, env).0;
            IdInv(s') && Grows(s, s')
  {
    hide PeerAttrs, EncAttrs, Response;
  }

  lemma GrowsEnqueue(s: Srv, s1: Srv, i: nat, m: Msg)
    requires IdInv(s1) && Grows(s, s1) && i < |s1.c|
    ensures IdInv(EnqueueAt(s1, i, m)) && Grows(s, EnqueueAt(s1, i, m))
  {
    EnqueueKeepsIds(s1, i, m);
    assert forall j | 0 <= j < |s1.c| :: SameIdentity(s1.c[j], EnqueueAt(s1, i, m).c[j]);
    assert SlotBindings(EnqueueAt(s1, i, m).c) <= SlotBindings(s1.c);
  }

  lemma ProcessKeepsIds(s: Srv, i: nat, m: Msg, env: Env)
    requires IdInv(s) && i < |s.c| && s.c[i].Open() && 0 < s.db.nextId < MAX_ID
    requires DropSaved(s.db, env.dropOk)
    ensures IdInv(ProcessMsg(s, i, m, env)) && Grows(s, ProcessMsg(s, i, m, env))
  {
    hide ServerMsg, IdInv, Grows, Err;
    var m' := Stamp(s.c[i], m);
    var (s', reply) := Dispatch(s, i, m', env);
    Unchanged(s);
    if m.dst == 0 {
      ServerMsgKeepsIds(s, i, m', env);
      ServerMsgRelabels(s, i, m', env);
      CloseDoomedSpares(s, i, s.c[i].id);
    } else if m.dst != BROADCAST {
      var k := FindPeer(s.c, m.dst);
      if k < |s.c| { GrowsEnqueue(s, s, k, m'); }
    }
    if reply.Some? { GrowsEnqueue(s, s', i, reply.value); }
  }

  lemma GrowsFrom(s: Srv, s1: Srv, s': Srv)
    requires s1.db == s.db && Bindings(s1) <= Bindings(s) && Grows(s1, s')
    ensures Grows(s, s')
  {}

  /** Only I/O fields of an open slot change. */
  lemma TouchKeepsIds(s: Srv, s': Srv, i: nat)
    requires IdInv(s) && i < |s.c| == |s'.c| && s.c[i].Open() && s'.db == s.db && s'.c == s.c[i := s'.c[i]]
    requires s'.c[i] == s.c[i].(rbuf := s'.c[i].rbuf, act := s'.c[i].act, tx := s'.c[i].tx)
    ensures IdInv(s') && Grows(s, s') && Bindings(s') <= Bindings(s)
  {
    hide DbOk, OneToOne, Issued;
    assert forall j | 0 <= j < |s.c| :: SlotOk(s.c[j]);
    assert forall j | 0 <= j < |s.c| && j != i :: s'.c[j] == s.c[j];
    KeepIdentities(s, s');
    ReplaceBindings(s.c, i, s'.c[i]);
    if s.c[i].name.Some? { SlotBinds(s.c, i); }
  }

  lemma InputKeepsIds(s: Srv, i: nat, now: int, chunk: seq<byte>, env: Env, cfg: Config)
    requires IdInv(s) && i < |s.c| && s.c[i].Open() && 0 < s.db.nextId < MAX_ID
    requires DropSaved(s.db, env.dropOk)
    requires var rx := ForRead(s, i, now, cfg).c[i].rbuf.value; rx.Ok() && 0 < |chunk| <= rx.size - |rx.got|
    ensures var s' := ReadAt(ForRead(s, i, now, cfg), i, chunk, env);
            IdInv(s') && Grows(s, s')
  {
    hide IdInv, Grows, ProcessMsg, Feed, Bindings;
    var s1 := ForRead(s, i, now, cfg);
    TouchKeepsIds(s, s1, i);
    match Feed(s1.c[i].rbuf.value, chunk)
    case Died => DeadKeepsIds(s, s1);
    case Pending(rx) =>
      TouchKeepsIds(s1, s1.(c := s1.c[i := s1.c[i].(rbuf := Some(rx))]), i);
      GrowsFrom(s, s1, s1.(c := s1.c[i := s1.c[i].(rbuf := Some(rx))]));
    case Complete(m) =>
      var s2 := s1.(c := s1.c[i := s1.c[i].(rbuf := None)]);
      TouchKeepsIds(s1, s2, i);
      ProcessKeepsIds(s2, i, m, env);
      GrowsFrom(s, s2, ProcessMsg(s2, i, m, env));
  }

  lemma DeadKeepsIds(s: Srv, s1: Srv)
    requires IdInv(s1) && Grows(s, s1)
    ensures IdInv(s1.(dead := true)) && Grows(s, s1.(dead := true))
  {}

  lemma CloseKeepsIds(s: Srv, i: nat)
    requires IdInv(s) && i < |s.c|
    ensures IdInv(Close(s, i)) && Grows(s, Close(s, i))
  {
    var s' := Close(s, i);
    assert forall j | 0 <= j < |s.c| :: SlotOk(s.c[j]);
    assert forall j | 0 <= j < |s.c| && j != i :: s'.c[j] == s.c[j];
    KeepIdentities(s, s');
  }

  lemma AcceptKeepsIds(s: Srv, fd: nat, nonblock: bool, now: int)
    requires IdInv(s)
    ensures IdInv(Accept(s, fd, nonblock, now)) && Grows(s, Accept(s, fd, nonblock, now))
  {
    hide DbOk, OneToOne, Issued;
    var k := FindFree(s.c);
    var s' := Accept(s, fd, nonblock, now);
    if s' != s {
      assert forall j | 0 <= j < |s.c| :: SlotOk(s.c[j]);
      assert forall j | 0 <= j < |s.c| && j != k :: s'.c[j] == s.c[j];
      ReplaceBindings(s.c, k, s'.c[k]);
      assert Bindings(s') <= Bindings(s);
      SubsetOneToOne(Bindings(s), Bindings(s'), s.db.nextId);
    }
  }

  lemma {:induction false} SurvivorIds(c: seq<Client>, now: int, cfg: Config)
    ensures var l := Survivors(c, now, cfg);
            && SlotBindings(l) <= SlotBindings(c)
            && (UniquePeers(c) ==> UniquePeers(l))
            && forall x <- l :: exists y <- c :: x == y.(rbuf := x.rbuf) && y.Open()
  {
    if c != [] {
      var n := |c| - 1;
      var c0, p := c[..n], c[n];
      SurvivorIds(c0, now, cfg);
      assert forall j | 0 <= j < n :: c0[j] == c[j];
      var l0 := Survivors(c0, now, cfg);
      var q := Resynced(p, now, cfg);
      if Stays(p, now, cfg) {
        assert p in c && q == p.(rbuf := q.rbuf);
        assert (l0 + [q])[|l0|] == q;
        if UniquePeers(c) && q.Peer() {
          forall x <- l0 | x.Peer()
            ensures x.id != q.id
          {
            var y :| y in c0 && x == y.(rbuf := x.rbuf) && y.Open();
            var j :| 0 <= j < n && c0[j] == y;
            assert c[j].Peer() && c[n].Peer();
          }
        }
      } else {
        assert l0 + [] == l0;
      }
    }
  }

  lemma PrefixIds(c: seq<Client>, l: seq<Client>)
    requires |l| <= |c| && c[..|l|] == l && forall j | |l| <= j < |c| :: !c[j].Open()
    ensures SlotBindings(c) <= SlotBindings(l)
    ensures UniquePeers(l) ==> UniquePeers(c)
    ensures forall x <- c | x.Open() :: x in l
  {
    assert forall j | 0 <= j < |l| :: c[j] == l[j];
    assert forall j | 0 <= j < |c| && c[j].Open() :: j < |l|;
  }

  lemma UpkeepKeepsIds(s: Srv, s': Srv, now: int, lfd: int, cfg: Config)
    requires IdInv(s) && Upkept(s, s', now, lfd, cfg)
    ensures IdInv(s') && Grows(s, s')
  {
    hide DbOk, OneToOne, Issued, Survivors;
    var l := Survivors(s.c, now, cfg);
    SurvivorIds(s.c, now, cfg);
    PrefixIds(s'.c, l);
    assert Bindings(s') <= Bindings(s);
    SubsetOneToOne(Bindings(s), Bindings(s'), s.db.nextId);
    forall x <- s'.c | x.Open()
      ensures SlotOk(x)
    {
      assert x in l;
      var y :| y in s.c && x == y.(rbuf := x.rbuf) && y.Open();
      assert SlotOk(y);
    }
  }

  /** The file can be written when the only account is dropped.  No other save matters. */
  predicate Saved(s: Srv, e: Event) { e.Input? ==> DropSaved(s.db, e.env.dropOk) }

  lemma StepKeepsIds(s: Srv, e: Event, s': Srv, lfd: int, cfg: Config)
    requires IdInv(s) && 0 < s.db.nextId < MAX_ID && Step(s, e, s', lfd, cfg) && Saved(s, e)
    ensures IdInv(s') && Grows(s, s')
  {
    hide IdInv, Grows, Upkept, ReadAt, Close, Accept, Written;
    match e
    case Connect(fd, nonblock, now) => AcceptKeepsIds(s, fd, nonblock, now);
    case Input(i, now, chunk, env) => InputKeepsIds(s, i, now, chunk, env, cfg);
    case NoInput(i, now) => TouchKeepsIds(s, s', i);
    case Output(i, n, now) => TouchKeepsIds(s, s', i);
    case NoOutput(i, now) => TouchKeepsIds(s, s', i);
    case Hangup(i) => CloseKeepsIds(s, i);
    case Upkeep(now) => UpkeepKeepsIds(s, s', now, lfd, cfg);
  }
}
