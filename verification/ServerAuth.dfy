/** Authentication over whole runs: how a slot can have become authenticated. */
module ServerAuth {
  import opened Bytes
  import opened Message
  import opened Channel
  import opened UserFile
  import opened UserDb
  import opened UserDbMap
  import opened ServerSpec
  import opened ServerInv
  import opened ServerIds
  import opened ServerRuns

  /** The message that a read completes, if any. */
  ghost function Completed(s: Srv, e: Event, cfg: Config): Option<Msg> {
    if e.Input? && e.i < |s.c| then
      var rx := ForRead(s, e.i, e.now, cfg).c[e.i].rbuf.value;
      if rx.Ok() && 0 < |e.chunk| <= rx.size - |rx.got| then
        match Feed(rx, e.chunk)
        case Complete(m) => Some(m)
        case _ => None
      else None
    else None
  }

  /** A message to the server of type `t`, from the connection with descriptor `fd`. */
  ghost predicate Receives(s: Srv, e: Event, cfg: Config, fd: int, t: u16) {
    && e.Input? && e.i < |s.c| && s.c[e.i].Open() && s.c[e.i].fd == fd
    && Completed(s, e, cfg).Some? && Completed(s, e, cfg).value.dst == 0 && Completed(s, e, cfg).value.mtype == t
  }

  /** A LOGIN from a connection that is not logged in. */
  ghost predicate LoginAt(s: Srv, e: Event, cfg: Config, fd: int) {
    && Receives(s, e, cfg, fd, LOGIN_REQ) && s.c[e.i].st == PreLogin
    && First(Completed(s, e, cfg).value, USERNAME).Some?
  }

  ghost function LoginName(s: Srv, e: Event, cfg: Config): seq<byte>
    requires Completed(s, e, cfg).Some? && First(Completed(s, e, cfg).value, USERNAME).Some?
  {
    CStr(First(Completed(s, e, cfg).value, USERNAME).value)
  }

  /** An AUTH from the connection presenting `key` as digest. */
  ghost predicate DigestAt(s: Srv, e: Event, cfg: Config, fd: int, key: seq<byte>) {
    && Receives(s, e, cfg, fd, AUTH_REQ)
    && First(Completed(s, e, cfg).value, DIGEST).Some?
    && CStr(First(Completed(s, e, cfg).value, DIGEST).value) == key
  }

  /** The account that the server finds under a name: in memory, or in the file while memory holds none. */
  function Account(d: Db, name: seq<byte>): Option<Entry> { LookupName(d, name).1 }

  lemma AccountNamed(d: Db, name: seq<byte>)
    ensures Account(d, name) == LookupName(d, name).1
    ensures Account(d, name).Some? ==> Account(d, name).value.name == name
  {
    hide Load;
  }

  ghost predicate SameLogin(x: Client, y: Client) {
    y.st == x.st && y.id == x.id && y.name == x.name && y.key == x.key
  }

  /** What a message can do to the login of its sender. */
  ghost predicate LoginEffect(s: Srv, x: Client, m: Msg, y: Client) {
    || SameLogin(x, y)
    || (y.st == PreLogin && (y.key == x.key || y.key == None))
    || (&& x.st == PreLogin && m.dst == 0 && m.mtype == LOGIN_REQ && First(m, USERNAME).Some?
        && var name := CStr(First(m, USERNAME).value);
           && y.name == Some(name)
           && match Account(s.db, name)
              case None => y.st == AuthOk && y.key == None
              case Some(u) => y.st == LoginOk && y.id == u.id && y.key == HeldKey(x, u))
    || (&& x.st == LoginOk && m.dst == 0 && m.mtype == AUTH_REQ && First(m, DIGEST).Some?
        && x.key == Some(CStr(First(m, DIGEST).value))
        && y.st == AuthOk && y.id == x.id && y.name == x.name && y.key == x.key)
  }

  lemma LoginHasEffect(s: Srv, i: nat, m: Msg, env: Env)
    requires i < |s.c| && m.dst == 0 && m.mtype == LOGIN_REQ
    ensures LoginEffect(s, s.c[i], m, Login(s, i, m, env).0.c[i])
  {
    hide Err, ServerSpec.Ok, AddAttr, Response, LookupName, GetTempId, NameInUse, First, Attrs;
    if s.c[i].st == PreLogin && First(m, USERNAME).Some? {
      AccountNamed(s.db, CStr(First(m, USERNAME).value));
    }
  }

  lemma AuthHasEffect(s: Srv, i: nat, m: Msg, env: Env)
    requires i < |s.c| && m.dst == 0 && m.mtype == AUTH_REQ
    ensures LoginEffect(s, s.c[i], m, Auth(s, i, m, env).0.c[i])
  {
    hide Err, ServerSpec.Ok, First, CloseDoomed;
    CloseDoomedSpares(s, i, s.c[i].id);
  }

  lemma ServerMsgEffect(s: Srv, i: nat, m: Msg, env: Env)
    requires i < |s.c| && m.dst == 0
    ensures LoginEffect(s, s.c[i], m, ServerMsg(s, i, m, env).0.c[i])
  {
    hide Err, ServerSpec.Ok, DropEntry, AddEntry, First, EncAttrs, PeerAttrs, Login, Auth;
    if m.mtype == LOGIN_REQ {
      LoginHasEffect(s, i, m, env);
    } else if m.mtype == AUTH_REQ {
      AuthHasEffect(s, i, m, env);
    }
  }

  lemma StampKeeps(c: Client, m: Msg)
    ensures var m' := Stamp(c, m);
            m'.dst == m.dst && m'.mtype == m.mtype && forall t :: First(m', t) == First(m, t)
  {}

  /** Processing a message of slot `i`: that slot changes as above, others keep their login or close. */
  lemma ProcessEffect(s: Srv, i: nat, m: Msg, env: Env, j: nat)
    requires i < |s.c| && s.c[i].Open() && j < |s.c|
    ensures var y := ProcessMsg(s, i, m, env).c[j];
            y.Open() ==> s.c[j].Open() && y.fd == s.c[j].fd
                         && if j == i then LoginEffect(s, s.c[i], m, y) else SameLogin(s.c[j], y)
  {
    hide ServerMsg, Err, LoginEffect, First, CloseDoomed;
    var m' := Stamp(s.c[i], m);
    StampKeeps(s.c[i], m);
    var (s', reply) := Dispatch(s, i, m', env);
    if m.dst == 0 {
      ServerMsgRelabels(s, i, m', env);
      CloseDoomedSpares(s, i, s.c[i].id);
      ServerMsgEffect(s, i, m', env);
      EffectOfStamped(s, s.c[i], m, s'.c[i]);
    } else {
      NoEffect(s, s.c[i], m, s'.c[i]);
    }
    EffectOfQueue(s, s.c[i], m, s'.c[i]);
  }

  lemma EffectOfStamped(s: Srv, x: Client, m: Msg, y: Client)
    requires LoginEffect(s, x, Stamp(x, m), y)
    ensures LoginEffect(s, x, m, y)
  {
    StampKeeps(x, m);
    hide First;
  }

  lemma NoEffect(s: Srv, x: Client, m: Msg, y: Client)
    requires SameLogin(x, y)
    ensures LoginEffect(s, x, m, y)
  {}

  lemma EffectOfQueue(s: Srv, x: Client, m: Msg, y: Client)
    requires LoginEffect(s, x, m, y)
    ensures forall tx :: LoginEffect(s, x, m, y.(tx := tx))
  {
    hide First;
  }

  /** Any step: an open slot is a new connection, or keeps its login, or received a message. */
  lemma StepEffect(s: Srv, e: Event, s': Srv, lfd: int, cfg: Config, j: nat)
    requires Step(s, e, s', lfd, cfg) && j < |s'.c| && s'.c[j].Open()
    ensures var y := s'.c[j];
            || (e.Connect? && y.fd == e.fd && y.st == PreLogin && y.key == None)
            || (exists x <- s.c :: x.Open() && x.fd == y.fd && SameLogin(x, y))
            || (&& e.Input? && e.i < |s.c| && s.c[e.i].Open() && s.c[e.i].fd == y.fd
                && Completed(s, e, cfg).Some? && LoginEffect(s, s.c[e.i], Completed(s, e, cfg).value, y))
  {
    hide LoginEffect, ProcessMsg, Upkept, Feed, Written;
    match e
    case Connect(fd, nonblock, now) => assert j < |s.c| ==> s.c[j] in s.c;
    case Input(i, now, chunk, env) => InputEffect(s, e, lfd, cfg, j);
    case NoInput(i, now) => assert s.c[j] in s.c;
    case Output(i, n, now) => assert s.c[j] in s.c;
    case NoOutput(i, now) => assert s.c[j] in s.c;
    case Hangup(i) => assert s.c[j] in s.c;
    case Upkeep(now) => UpkeepEffect(s, s', now, lfd, cfg, j);
  }

  lemma UpkeepEffect(s: Srv, s': Srv, now: int, lfd: int, cfg: Config, j: nat)
    requires Upkept(s, s', now, lfd, cfg) && j < |s'.c| && s'.c[j].Open()
    ensures exists x <- s.c :: x.Open() && x.fd == s'.c[j].fd && SameLogin(x, s'.c[j])
  {
    hide Survivors;
    SurvivorIds(s.c, now, cfg);
    PrefixIds(s'.c, Survivors(s.c, now, cfg));
    assert s'.c[j] in s'.c;
  }

  lemma InputEffect(s: Srv, e: Event, lfd: int, cfg: Config, j: nat)
    requires e.Input? && e.i < |s.c| && s.c[e.i].Open() && j < |s.c|
    requires var rx := ForRead(s, e.i, e.now, cfg).c[e.i].rbuf.value; rx.Ok() && 0 < |e.chunk| <= rx.size - |rx.got|
    requires var s' := ReadAt(ForRead(s, e.i, e.now, cfg), e.i, e.chunk, e.env); s'.c[j].Open()
    ensures var y := ReadAt(ForRead(s, e.i, e.now, cfg), e.i, e.chunk, e.env).c[j];
            || (exists x <- s.c :: x.Open() && x.fd == y.fd && SameLogin(x, y))
            || (&& s.c[e.i].fd == y.fd && Completed(s, e, cfg).Some?
                && LoginEffect(s, s.c[e.i], Completed(s, e, cfg).value, y))
  {
    hide LoginEffect, ProcessMsg, Feed;
    var i := e.i;
    var s1 := ForRead(s, i, e.now, cfg);
    assert s.c[j] in s.c;
    match Feed(s1.c[i].rbuf.value, e.chunk)
    case Died =>
    case Pending(rx) =>
    case Complete(m) =>
      var s2 := s1.(c := s1.c[i := s1.c[i].(rbuf := None)]);
      ProcessEffect(s2, i, m, e.env, j);
      EffectFrom(s, s2, i, m, ProcessMsg(s2, i, m, e.env).c[j]);
  }

  lemma EffectFrom(s: Srv, s2: Srv, i: nat, m: Msg, y: Client)
    requires i < |s.c| == |s2.c| && s2.db == s.db && SameLogin(s.c[i], s2.c[i])
    ensures LoginEffect(s2, s2.c[i], m, y) <==> LoginEffect(s, s.c[i], m, y)
  {
    hide First;
  }

  // ----- runs -----

  ghost predicate OpenAt(s: Srv, fd: int) { exists x <- s.c :: x.Open() && x.fd == fd }

  /** The connection with descriptor `fd` lived from state `a` to state `b`. */
  ghost predicate Lives(r: seq<Srv>, fd: int, a: nat, b: nat) {
    b < |r| && forall k | a <= k <= b :: OpenAt(r[k], fd)
  }

  /** Slot `y` of state `k` owes its login to the LOGIN at event `at`, the last one of its connection; if
      the name was registered then and the slot is authenticated, event `au` since then presented the key
      that the slot held after that LOGIN. */
  ghost predicate Origin(r: seq<Srv>, es: seq<Event>, cfg: Config, at: nat, au: nat, k: nat, y: Client) {
    && at < k < |r| == |es| + 1 && Lives(r, y.fd, at, k)
    && LoginAt(r[at], es[at], cfg, y.fd)
    && (forall q | at < q < k :: !LoginAt(r[q], es[q], cfg, y.fd))
    && y.name == Some(LoginName(r[at], es[at], cfg))
    && match Account(r[at].db, LoginName(r[at], es[at], cfg))
       case None => y.st == AuthOk
       case Some(u) =>
         var held := HeldKey(r[at].c[es[at].i], u);
         && y.id == u.id
         && (y.st == LoginOk ==> y.key == held)
         && (y.st == AuthOk ==> held.Some? && at < au < k && DigestAt(r[au], es[au], cfg, y.fd, held.value))
  }

  lemma LivesMore(r: seq<Srv>, fd: int, a: nat, k: nat)
    requires 0 < k < |r| && a < k && Lives(r, fd, a, k - 1) && OpenAt(r[k], fd)
    ensures Lives(r, fd, a, k)
  {}

  lemma KeepOrigin(r: seq<Srv>, es: seq<Event>, cfg: Config, at: nat, au: nat, k: nat, x: Client, y: Client)
    requires 0 < k && Origin(r, es, cfg, at, au, k - 1, x) && k < |r|
    requires SameLogin(x, y) && x.fd == y.fd && OpenAt(r[k], y.fd) && x.st in {LoginOk, AuthOk}
    requires !LoginAt(r[k - 1], es[k - 1], cfg, y.fd)
    ensures Origin(r, es, cfg, at, au, k, y)
  {
    hide LoginAt, DigestAt, OpenAt, LoginName, Completed, First;
    LivesMore(r, y.fd, at, k);
  }

  lemma AuthOrigin(r: seq<Srv>, es: seq<Event>, cfg: Config, at: nat, au: nat, k: nat, x: Client, y: Client)
    requires 0 < k && Origin(r, es, cfg, at, au, k - 1, x) && k < |r| && x.st == LoginOk && x.fd == y.fd
    requires OpenAt(r[k], y.fd) && !LoginAt(r[k - 1], es[k - 1], cfg, y.fd)
    requires x.key.Some? && DigestAt(r[k - 1], es[k - 1], cfg, y.fd, x.key.value)
    requires y.st == AuthOk && y.id == x.id && y.name == x.name
    ensures Origin(r, es, cfg, at, k - 1, k, y)
  {
    hide LoginAt, DigestAt, OpenAt, LoginName, Completed, First;
    LivesMore(r, y.fd, at, k);
  }

  lemma NewOrigin(r: seq<Srv>, es: seq<Event>, cfg: Config, k: nat, y: Client)
    requires 0 < k < |r| == |es| + 1
    requires var s, e := r[k - 1], es[k - 1];
             && LoginAt(s, e, cfg, y.fd) && OpenAt(r[k], y.fd) && y.name == Some(LoginName(s, e, cfg))
             && match Account(s.db, LoginName(s, e, cfg))
                case None => y.st == AuthOk
                case Some(u) => y.st == LoginOk && y.id == u.id && y.key == HeldKey(s.c[e.i], u)
    ensures Origin(r, es, cfg, k - 1, k - 1, k, y)
  {
    hide Completed, First;
    var x := r[k - 1].c[es[k - 1].i];
    assert x in r[k - 1].c;
  }

  /** Descriptors identify slots. */
  lemma SameFd(s: Srv, lfd: int, x: Client, i: nat)
    requires FdInv(s, lfd) && x in s.c && x.Open() && i < |s.c| && s.c[i].Open() && s.c[i].fd == x.fd
    ensures x == s.c[i]
  {
    var j :| 0 <= j < |s.c| && s.c[j] == x;
    assert forall a, b | 0 <= a < b < |s.c| && s.c[a].Open() && s.c[b].Open() :: s.c[a].fd != s.c[b].fd;
  }

  lemma {:induction false} History(r: seq<Srv>, es: seq<Event>, lfd: int, cfg: Config, k: nat, j: nat)
    returns (at: nat, au: nat)
    requires Run(r, es, lfd, cfg) && FdInv(r[0], lfd)
    requires forall x <- r[0].c :: !x.Open()
    requires k <= |es| && j < |r[k].c| && r[k].c[j].Open() && r[k].c[j].st in {LoginOk, AuthOk}
    ensures Origin(r, es, cfg, at, au, k, r[k].c[j])
    decreases k
  {
    hide FdInv, Step, LoginEffect, Completed, Origin;
    var y := r[k].c[j];
    assert y in r[k].c;
    if k == 0 {
      assert false;
    } else {
      var s, e := r[k - 1], es[k - 1];
      assert Step(s, e, r[k], lfd, cfg);
      RunFds(r, es, lfd, cfg, k - 1);
      StepEffect(s, e, r[k], lfd, cfg, j);
      if x :| x in s.c && x.Open() && x.fd == y.fd && SameLogin(x, y) {
        at, au := HistoryBefore(r, es, lfd, cfg, k, x);
        NotLoginNow(s, e, lfd, cfg, x);
        KeepOrigin(r, es, cfg, at, au, k, x, y);
      } else {
        at, au := HistoryOfMessage(r, es, lfd, cfg, k, y);
      }
    }
  }

  lemma HistoryBefore(r: seq<Srv>, es: seq<Event>, lfd: int, cfg: Config, k: nat, x: Client)
    returns (at: nat, au: nat)
    requires Run(r, es, lfd, cfg) && FdInv(r[0], lfd)
    requires forall z <- r[0].c :: !z.Open()
    requires 0 < k <= |es| && x in r[k - 1].c && x.Open() && x.st in {LoginOk, AuthOk}
    ensures Origin(r, es, cfg, at, au, k - 1, x)
    decreases k, 0
  {
    hide FdInv, Step, Origin;
    var i :| 0 <= i < |r[k - 1].c| && r[k - 1].c[i] == x;
    at, au := History(r, es, lfd, cfg, k - 1, i);
  }

  /** A connection that is logged in cannot have a LOGIN accepted. */
  lemma NotLoginNow(s: Srv, e: Event, lfd: int, cfg: Config, x: Client)
    requires FdInv(s, lfd) && x in s.c && x.Open() && x.st != PreLogin
    ensures !LoginAt(s, e, cfg, x.fd)
  {
    hide FdInv, Completed, First;
    if e.Input? && e.i < |s.c| && s.c[e.i].Open() && s.c[e.i].fd == x.fd {
      SameFd(s, lfd, x, e.i);
    }
  }

  lemma HistoryOfMessage(r: seq<Srv>, es: seq<Event>, lfd: int, cfg: Config, k: nat, y: Client)
    returns (at: nat, au: nat)
    requires Run(r, es, lfd, cfg) && FdInv(r[0], lfd)
    requires forall x <- r[0].c :: !x.Open()
    requires 0 < k <= |es| && y in r[k].c && y.Open() && y.st in {LoginOk, AuthOk}
    requires var s, e := r[k - 1], es[k - 1];
             && FdInv(s, lfd) && e.Input? && e.i < |s.c| && s.c[e.i].Open() && s.c[e.i].fd == y.fd
             && !SameLogin(s.c[e.i], y)
             && Completed(s, e, cfg).Some? && LoginEffect(s, s.c[e.i], Completed(s, e, cfg).value, y)
    ensures Origin(r, es, cfg, at, au, k, y)
    decreases k, 1
  {
    hide FdInv, Step, Completed, Origin, First;
    var s, e := r[k - 1], es[k - 1];
    var x := s.c[e.i];
    if x.st == PreLogin {
      NewOrigin(r, es, cfg, k, y);
      at, au := k - 1, k - 1;
    } else {
      at, au := HistoryBefore(r, es, lfd, cfg, k, x);
      NotLoginNow(s, e, lfd, cfg, x);
      AuthOrigin(r, es, cfg, at, au, k, x, y);
      au := k - 1;
    }
  }

  /** Authentication safety.  Whenever a slot is authenticated, its connection's last LOGIN named the name
      the slot has, and if that name was registered at that LOGIN, the connection has since presented a
      digest equal to the key the slot held after that LOGIN.  There is no other way to be authenticated. */
  lemma AuthenticationSafety(r: seq<Srv>, es: seq<Event>, lfd: int, cfg: Config, file: Option<seq<byte>>, k: nat,
          j: nat)
    requires Run(r, es, lfd, cfg) && Initial(r[0], file, lfd)
    requires k <= |es| && j < |r[k].c| && r[k].c[j].Peer()
    ensures exists at: nat, au: nat :: Origin(r, es, cfg, at, au, k, r[k].c[j])
  {
    hide Step, Origin, FdInv;
    InitialSlots(r[0], lfd);
    var at, au := History(r, es, lfd, cfg, k, j);
  }

  /** The digest that let a registered user in is the key that was stored for the name if and only if that key
      has the prefix or the slot happened to hold the same key already. */
  lemma StoredKeyPresented(r: seq<Srv>, es: seq<Event>, cfg: Config, at: nat, au: nat, k: nat, y: Client, u: Entry)
    requires Origin(r, es, cfg, at, au, k, y) && y.Peer()
    requires Account(r[at].db, LoginName(r[at], es[at], cfg)) == Some(u)
    ensures DigestAt(r[au], es[au], cfg, y.fd, u.key)
            <==> PLAINTEXT <= u.key || r[at].c[es[at].i].key == Some(u.key)
  {
    hide Completed, First, CStr, Account;
  }

  // ----- where a key comes from -----

  /** Event `at` is a LOGIN of the connection that named an account stored with the prefix and this key. */
  ghost predicate KeyFrom(r: seq<Srv>, es: seq<Event>, cfg: Config, at: nat, k: nat, fd: int, key: seq<byte>) {
    && at < k < |r| == |es| + 1 && Lives(r, fd, at, k) && LoginAt(r[at], es[at], cfg, fd)
    && PLAINTEXT <= key
    && var u := Account(r[at].db, LoginName(r[at], es[at], cfg)); u.Some? && u.value.key == key
  }

  lemma KeepKey(r: seq<Srv>, es: seq<Event>, cfg: Config, at: nat, k: nat, fd: int, key: seq<byte>)
    requires 0 < k < |r| && KeyFrom(r, es, cfg, at, k - 1, fd, key) && OpenAt(r[k], fd)
    ensures KeyFrom(r, es, cfg, at, k, fd, key)
  {
    hide LoginAt, OpenAt, LoginName, Completed, First, Account;
    LivesMore(r, fd, at, k);
  }

  /** A LOGIN of a registered name may bring a new key; nothing else does. */
  lemma NewKey(r: seq<Srv>, es: seq<Event>, cfg: Config, k: nat, y: Client)
    requires 0 < k < |r| == |es| + 1 && OpenAt(r[k], y.fd) && y.key.Some?
    requires var s, e := r[k - 1], es[k - 1];
             && e.Input? && e.i < |s.c| && s.c[e.i].Open() && s.c[e.i].fd == y.fd && s.c[e.i].key != y.key
             && Completed(s, e, cfg).Some? && LoginEffect(s, s.c[e.i], Completed(s, e, cfg).value, y)
    ensures KeyFrom(r, es, cfg, k - 1, k, y.fd, y.key.value)
  {
    hide Completed, First, CStr, Account;
    assert r[k - 1].c[es[k - 1].i] in r[k - 1].c;
  }

  /** Every key in a slot comes from a LOGIN of the slot's own connection. */
  lemma {:induction false} KeyHistory(r: seq<Srv>, es: seq<Event>, lfd: int, cfg: Config, k: nat, j: nat)
    returns (at: nat)
    requires Run(r, es, lfd, cfg) && FdInv(r[0], lfd)
    requires forall x <- r[0].c :: !x.Open()
    requires k <= |es| && j < |r[k].c| && r[k].c[j].Open() && r[k].c[j].key.Some?
    ensures at < k && KeyFrom(r, es, cfg, at, k, r[k].c[j].fd, r[k].c[j].key.value)
    decreases k
  {
    hide FdInv, Step, LoginEffect, Completed, KeyFrom;
    var y := r[k].c[j];
    assert y in r[k].c;
    if k == 0 {
      assert false;
    } else {
      var s, e := r[k - 1], es[k - 1];
      assert Step(s, e, r[k], lfd, cfg);
      RunFds(r, es, lfd, cfg, k - 1);
      StepEffect(s, e, r[k], lfd, cfg, j);
      if x :| x in s.c && x.Open() && x.fd == y.fd && x.key == y.key {
        var i :| 0 <= i < |s.c| && s.c[i] == x;
        at := KeyHistory(r, es, lfd, cfg, k - 1, i);
        KeepKey(r, es, cfg, at, k, y.fd, y.key.value);
      } else {
        NewKey(r, es, cfg, k, y);
        at := k - 1;
      }
    }
  }

  /** Whatever the stored keys look like: a slot that is authenticated under a registered name has presented,
      since its last LOGIN, a key with the prefix that was stored for an account which a LOGIN of the very
      same connection named, at that LOGIN or before. */
  lemma SomeKeyPresented(r: seq<Srv>, es: seq<Event>, lfd: int, cfg: Config, file: Option<seq<byte>>,
                         at: nat, au: nat, k: nat, y: Client)
    returns (from: nat, key: seq<byte>)
    requires Run(r, es, lfd, cfg) && Initial(r[0], file, lfd)
    requires k <= |es| && Origin(r, es, cfg, at, au, k, y) && y.Peer()
    requires Account(r[at].db, LoginName(r[at], es[at], cfg)).Some?
    ensures from <= at && KeyFrom(r, es, cfg, from, at + 1, y.fd, key) && DigestAt(r[au], es[au], cfg, y.fd, key)
  {
    InitialSlots(r[0], lfd);
    assert forall x <- r[0].c :: !x.Open();
    hide FdInv, Step, Completed, First, CStr, Account, KeyFrom, Initial;
    var u := Account(r[at].db, LoginName(r[at], es[at], cfg)).value;
    key := HeldKey(r[at].c[es[at].i], u).value;
    if PLAINTEXT <= u.key {
      from := at;
      OwnKey(r, es, cfg, at, k, y.fd);
    } else {
      from := KeyHistory(r, es, lfd, cfg, at, es[at].i);
      KeepKey(r, es, cfg, from, at + 1, y.fd, key);
    }
  }

  lemma OwnKey(r: seq<Srv>, es: seq<Event>, cfg: Config, at: nat, k: nat, fd: int)
    requires at < k < |r| == |es| + 1 && Lives(r, fd, at, k) && LoginAt(r[at], es[at], cfg, fd)
    requires var u := Account(r[at].db, LoginName(r[at], es[at], cfg)); u.Some? && PLAINTEXT <= u.value.key
    ensures KeyFrom(r, es, cfg, at, at + 1, fd, Account(r[at].db, LoginName(r[at], es[at], cfg)).value.key)
  {
    hide LoginAt, LoginName, Completed, First, Account, OpenAt;
  }
}
