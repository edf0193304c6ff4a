/** One step of the relay server as a function of its state (srvmain.c).

    The class in Server.dfy is the program's form with its loops over the client array; its methods are
    proved against these functions, and the invariants and run theorems are about them. */
module ServerSpec {
  import opened Bytes
  import opened Message
  import opened Channel
  import opened UserFile
  import opened UserDb

  datatype St = Invalid | PreLogin | LoginOk | AuthOk

  /** A slot of the client array; it is unused while `fd` is negative. */
  datatype Client = Client(fd: int, id: u64, name: Option<seq<byte>>, key: Option<seq<byte>>, st: St, act: int,
                           rbuf: Option<Rx>, tx: Tx)
  {
    predicate Open() { fd >= 0 }
    predicate Peer() { Open() && st == AuthOk }
  }

  const CLOSED := Client(-1, 0, None, None, Invalid, 0, None, Tx([], 0))

  /** `dead` stands for a process that ended, in `die_if` or comparing with a null string. */
  datatype Srv = Srv(c: seq<Client>, rfds: set<int>, wfds: set<int>, maxfd: int, db: Db, dead: bool)

  /** What processing one message takes from outside: the timestamp, the text of the notice that goes with
      the reply (status text or message of the day), and whether the database file can be opened for
      writing when an account has been dropped and when one has been added. */
  datatype Env = Env(ts: u64, text: seq<byte>, dropOk: bool, addOk: bool)
  {
    predicate Ok() { 0 !in text && |text| < 4000 }
  }

  const PLAINTEXT: seq<byte> := Ascii("plain-text ")

  const SC_BAD_REQUEST: u64 := 400
  const SC_UNAUTHORIZED: u64 := 401
  const SC_FORBIDDEN: u64 := 403
  const SC_NOT_FOUND: u64 := 404
  const SC_METHOD_NOT_ALLOWED: u64 := 405
  const SC_CONFLICT: u64 := 409
  const SC_I_AM_A_TEAPOT: u64 := 418
  const SC_MISDIRECTED_REQUEST: u64 := 421
  const SC_LOCKED: u64 := 423
  const SC_NOT_IMPLEMENTED: u64 := 501

  const BROADCAST: u64 := MAX_ID

  // ----- replies -----

  function Ok(m: Msg, env: Env): Msg {
    AddAttr(AddAttr(Response(m, env.ts), OK, []), NOTICE, env.text + [0])
  }

  function Err(m: Msg, ec: u64, env: Env): Msg {
    ErrorResponse(m, ec, env.text, env.ts)
  }

  /** The first attribute's value if it has the wanted type. */
  function First(m: Msg, t: u16): Option<seq<byte>> {
    var l := Attrs(m);
    if l != [] && l[0].t == t then Some(l[0].val) else None
  }

  // ----- slots -----

  function Lower(b: byte): byte { if 65 <= b <= 90 then b + 32 else b }

  /** `0 == stricmp(a, b)` */
  predicate SameNoCase(a: seq<byte>, b: seq<byte>) {
    |a| == |b| && forall i | 0 <= i < |a| :: Lower(a[i]) == Lower(b[i])
  }

  predicate Uses(c: Client, name: seq<byte>) { c.Open() && c.name.Some? && SameNoCase(c.name.value, name) }

  predicate NameInUse(c: seq<Client>, name: seq<byte>) {
    exists j | 0 <= j < |c| :: Uses(c[j], name)
  }

  function NameOf(c: Client): seq<byte> { if c.name.Some? then c.name.value else [] }

  /** Every other open slot with that id. */
  predicate Doomed(c: seq<Client>, i: int, id: u64, j: int)
    requires 0 <= j < |c|
  {
    id == c[j].id && i != j && c[j].Open()
  }

  /** Closing clears the fd in both sets and resets the slot. */
  function CloseDoomed(s: Srv, i: int, id: u64): Srv {
    var gone := set j | 0 <= j < |s.c| && Doomed(s.c, i, id, j) :: s.c[j].fd;
    s.(c := seq(|s.c|, j requires 0 <= j < |s.c| => if Doomed(s.c, i, id, j) then CLOSED else s.c[j]),
       rfds := s.rfds - gone, wfds := s.wfds - gone)
  }

  function Close(s: Srv, j: nat): Srv
    requires j < |s.c|
  {
    s.(c := s.c[j := CLOSED], rfds := s.rfds - {s.c[j].fd}, wfds := s.wfds - {s.c[j].fd})
  }

  function EnqueueAt(s: Srv, j: nat, m: Msg): Srv
    requires j < |s.c|
  {
    s.(c := s.c[j := s.c[j].(tx := Enqueue(s.c[j].tx, m))], wfds := s.wfds + {s.c[j].fd})
  }

  // ----- messages to the server -----

  type Result = (Srv, Option<Msg>)

  function Register(s: Srv, i: nat, m: Msg, env: Env): (r: Result)
    requires i < |s.c|
    ensures |r.0.c| == |s.c|
  {
    var c := s.c[i];
    if c.st != AuthOk then (s, Some(Err(m, SC_UNAUTHORIZED, env)))
    else match First(m, PUBKEY)
      case None => (s, Some(Err(m, SC_BAD_REQUEST, env)))
      case Some(av) =>
        var (db1, _) := DropEntry(s.db, NameOf(c), env.dropOk);
        var (db2, added) := AddEntry(db1, c.id, NameOf(c), PLAINTEXT + CStr(av), env.addOk);
        (s.(db := db2), Some(if added then Ok(m, env) else Err(m, SC_LOCKED, env)))
  }

  function DropAccount(s: Srv, i: nat, m: Msg, env: Env): (r: Result)
    requires i < |s.c|
    ensures |r.0.c| == |s.c|
  {
    if s.c[i].st != AuthOk then (s, Some(Err(m, SC_UNAUTHORIZED, env)))
    else
      var (db', dropped) := DropEntry(s.db, NameOf(s.c[i]), env.dropOk);
      (s.(db := db'), Some(if dropped then Ok(m, env) else Err(m, SC_NOT_FOUND, env)))
  }

  function Login(s: Srv, i: nat, m: Msg, env: Env): (r: Result)
    requires i < |s.c|
    ensures |r.0.c| == |s.c|
  {
    var c := s.c[i];
    if c.st != PreLogin || First(m, USERNAME).None? then (s, Some(Err(m, SC_BAD_REQUEST, env)))
    else
      var name := CStr(First(m, USERNAME).value);
      var (db', pu) := LookupName(s.db, name);
      match pu
      case None =>
        if NameInUse(s.c, name) then (s.(db := db'), Some(Err(m, SC_CONFLICT, env)))
        else
          var (db'', id) := GetTempId(db');
          (s.(db := db'', c := s.c[i := c.(st := AuthOk, id := id, name := Some(name), key := None)]), Some(Ok(m, env)))
      case Some(u) =>
        var c' := c.(st := LoginOk, id := u.id, name := Some(u.name));
        if PLAINTEXT <= u.key then
          (s.(db := db', c := s.c[i := c'.(key := Some(u.key))]),
           Some(AddAttr(Response(m, env.ts), CHALLENGE, PLAINTEXT + [0])))
        else
          (s.(db := db', c := s.c[i := c']), Some(Err(m, SC_METHOD_NOT_ALLOWED, env)))
  }

  function Auth(s: Srv, i: nat, m: Msg, env: Env): (r: Result)
    requires i < |s.c|
    ensures |r.0.c| == |s.c|
  {
    var c := s.c[i];
    if c.st != LoginOk || First(m, DIGEST).None? then
      (s.(c := s.c[i := c.(st := PreLogin)]), Some(Err(m, SC_BAD_REQUEST, env)))
    else if c.key.None? then (s.(dead := true), None)
    else if CStr(First(m, DIGEST).value) != c.key.value then
      (s.(c := s.c[i := c.(st := PreLogin)]), Some(Err(m, SC_UNAUTHORIZED, env)))
    else
      var s' := CloseDoomed(s, i, c.id);
      (s'.(c := s'.c[i := c.(st := AuthOk)]), Some(Ok(m, env)))
  }

  function Logout(s: Srv, i: nat, m: Msg, env: Env): (r: Result)
    requires i < |s.c|
    ensures |r.0.c| == |s.c|
  {
    (s.(c := s.c[i := s.c[i].(st := PreLogin, id := 0, name := None, key := None)]), Some(Ok(m, env)))
  }

  /** One id and one name attribute for every peer, in slot order. */
  function PeerAttrs(c: seq<Client>): seq<Attr> {
    if c == [] then []
    else
      var l := PeerAttrs(c[..|c| - 1]);
      var p := c[|c| - 1];
      if p.Peer() then l + [Attr(PEERID, Be(p.id, 8)), Attr(PEERNAME, NameOf(p) + [0])] else l
  }

  function Peerlist(s: Srv, m: Msg, env: Env): (r: Result)
    ensures |r.0.c| == |s.c|
  {
    var reply := Response(m, env.ts).(pay := EncAttrs(PeerAttrs(s.c)));
    if reply.Fits() then (s, Some(reply)) else (s.(dead := true), None)
  }

  function ServerMsg(s: Srv, i: nat, m: Msg, env: Env): (r: Result)
    requires i < |s.c|
    ensures |r.0.c| == |s.c|
  {
    var t := m.mtype;
    if s.c[i].st != AuthOk && t !in {LOGIN_REQ, AUTH_REQ, REGISTER_REQ} then (s, Some(Err(m, SC_FORBIDDEN, env)))
    else if t == PING_IND then (s, None)
    else if t == PING_REQ then (s, Some(AddAttr(Response(m, env.ts), OK, [])))
    else if t == REGISTER_REQ then Register(s, i, m, env)
    else if t == DROP_REQ then DropAccount(s, i, m, env)
    else if t == LOGIN_REQ then Login(s, i, m, env)
    else if t == AUTH_REQ then Auth(s, i, m, env)
    else if t == LOGOUT_REQ then Logout(s, i, m, env)
    else if t == PEERLIST_REQ then Peerlist(s, m, env)
    else (s, if IsReq(t) then Some(Err(m, SC_I_AM_A_TEAPOT, env)) else None)
  }

  // ----- other messages -----

  function BroadcastMsg(s: Srv, i: nat, m: Msg, env: Env): (r: Result)
    requires i < |s.c|
    ensures |r.0.c| == |s.c|
  {
    if s.c[i].st != AuthOk then (s, Some(Err(m, SC_FORBIDDEN, env)))
    else (s, if IsReq(m.mtype) then Some(Err(m, SC_NOT_IMPLEMENTED, env)) else None)
  }

  predicate Forwardable(t: u16) {
    t in {OFFER_IND, OFFER_REQ, OFFER_RES, OFFER_ERR, GETFILE_REQ, GETFILE_RES, GETFILE_ERR,
          PING_IND, PING_REQ, PING_RES, PING_ERR}
  }

  /** The first open authenticated slot with that id, or the length of the array. */
  function FindPeer(c: seq<Client>, id: u64): (k: nat)
    ensures k <= |c| && forall j | 0 <= j < k :: !(c[j].Peer() && c[j].id == id)
    ensures k < |c| ==> c[k].Peer() && c[k].id == id
  {
    if c == [] || (c[0].Peer() && c[0].id == id) then 0 else 1 + FindPeer(c[1..], id)
  }

  function ForwardMsg(s: Srv, i: nat, m: Msg, env: Env): (r: Result)
    requires i < |s.c|
    ensures |r.0.c| == |s.c|
  {
    var k := FindPeer(s.c, m.dst);
    if s.c[i].st != AuthOk then (s, Some(Err(m, SC_FORBIDDEN, env)))
    else if k == |s.c| then (s, Some(Err(m, SC_MISDIRECTED_REQUEST, env)))
    else if Forwardable(m.mtype) then (EnqueueAt(s, k, m), None)
    else (s, if IsReq(m.mtype) then Some(Err(m, SC_BAD_REQUEST, env)) else None)
  }

  /** The server fills in the sender's real id once it knows who the sender is. */
  function Stamp(c: Client, m: Msg): Msg {
    if c.st in {LoginOk, AuthOk} then m.(src := c.id) else m
  }

  function Dispatch(s: Srv, i: nat, m: Msg, env: Env): (r: Result)
    requires i < |s.c|
    ensures |r.0.c| == |s.c|
  {
    if m.dst == 0 then ServerMsg(s, i, m, env)
    else if m.dst == BROADCAST then BroadcastMsg(s, i, m, env)
    else ForwardMsg(s, i, m, env)
  }

  function ProcessMsg(s: Srv, i: nat, m: Msg, env: Env): (r: Srv)
    requires i < |s.c|
    ensures |r.c| == |s.c|
  {
    var (s', reply) := Dispatch(s, i, Stamp(s.c[i], m), env);
    if reply.Some? then EnqueueAt(s', i, reply.value) else s'
  }

  // ----- input, output, connections -----

  datatype Config = Config(msgTimeout: int, connTimeout: int)

  /** `resync_client`: a gap inside a message discards what was received of it. */
  function Resynced(c: Client, now: int, cfg: Config): Client {
    if c.rbuf.Some? && now - c.act > cfg.msgTimeout then c.(rbuf := None) else c
  }

  function ForRead(s: Srv, i: nat, now: int, cfg: Config): Srv
    requires i < |s.c|
  {
    var c := Resynced(s.c[i], now, cfg);
    s.(c := s.c[i := c.(rbuf := Some(Prepared(c.rbuf)), act := now)])
  }

  /** A successful read on slot `i`, prepared by `ForRead`. */
  function ReadAt(s: Srv, i: nat, chunk: seq<byte>, env: Env): Srv
    requires i < |s.c| && s.c[i].rbuf.Some? && s.c[i].rbuf.value.Ok()
    requires 0 < |chunk| <= s.c[i].rbuf.value.size - |s.c[i].rbuf.value.got|
  {
    match Feed(s.c[i].rbuf.value, chunk)
    case Pending(rx) => s.(c := s.c[i := s.c[i].(rbuf := Some(rx))])
    case Died => s.(dead := true)
    case Complete(m) => ProcessMsg(s.(c := s.c[i := s.c[i].(rbuf := None)]), i, m, env)
  }

  /** A successful write on slot `i`: the queue may become empty and leave the write set. */
  function WriteAt(s: Srv, i: nat, n: nat, now: int): Srv
    requires i < |s.c| && s.c[i].tx.Ok() && s.c[i].tx.q != []
    requires 0 < n <= MSG_HDR_SIZE + |s.c[i].tx.q[0].pay| - s.c[i].tx.off
  {
    var tx := Written(s.c[i].tx, n);
    s.(c := s.c[i := s.c[i].(tx := tx, act := now)], wfds := if tx.q == [] then s.wfds - {s.c[i].fd} else s.wfds)
  }

  /** Activity on slot `i` without any byte written. */
  function Touch(s: Srv, i: nat, now: int): Srv
    requires i < |s.c|
  {
    s.(c := s.c[i := s.c[i].(act := now)])
  }

  /** The first unused slot, or the length of the array. */
  function FindFree(c: seq<Client>): (k: nat)
    ensures k <= |c| && forall j | 0 <= j < k :: c[j].Open()
    ensures k < |c| ==> !c[k].Open()
  {
    if c == [] || !c[0].Open() then 0 else 1 + FindFree(c[1..])
  }

  /** The number of descriptors a descriptor set can hold. */
  const FD_SETSIZE := 1024

  /** `accept_client` with a connection on `fd`.  It is dropped if no descriptor set can hold it, if it cannot
      be made nonblocking, or without a free slot. */
  function Accept(s: Srv, fd: nat, nonblock: bool, now: int): Srv {
    var k := FindFree(s.c);
    if fd >= FD_SETSIZE || !nonblock || k == |s.c| then s
    else s.(c := s.c[k := Client(fd, 0, None, None, PreLogin, now, None, Tx([], 0))], rfds := s.rfds + {fd},
           maxfd := if fd > s.maxfd then fd else s.maxfd)
  }

  // ----- upkeep -----

  predicate Expired(c: Client, now: int, cfg: Config) { now - c.act > cfg.connTimeout }

  predicate Stays(c: Client, now: int, cfg: Config) { c.Open() && !Expired(c, now, cfg) }

  /** The open slots that have not timed out, in order. */
  function Survivors(c: seq<Client>, now: int, cfg: Config): (r: seq<Client>)
    ensures |r| <= |c|
    ensures forall x <- r :: x.Open()
  {
    if c == [] then []
    else
      var p := c[|c| - 1];
      Survivors(c[..|c| - 1], now, cfg) + if Stays(p, now, cfg) then [Resynced(p, now, cfg)] else []
  }

  function MaxFd(c: seq<Client>, m: int): (r: int)
    ensures r >= m && forall x <- c :: x.fd <= r
  {
    if c == [] then m
    else var r := MaxFd(c[..|c| - 1], m); if c[|c| - 1].fd > r then c[|c| - 1].fd else r
  }

  function ExpiredFds(c: seq<Client>, now: int, cfg: Config): set<int> {
    set j | 0 <= j < |c| && c[j].Open() && Expired(c[j], now, cfg) :: c[j].fd
  }

  /** `upkeep`: closes what has timed out and moves the rest to the front.  Vacated slots keep stale
      fields besides being unused, so only that is said of them. */
  ghost predicate Upkept(s: Srv, s': Srv, now: int, lfd: int, cfg: Config) {
    var l := Survivors(s.c, now, cfg);
    && |s'.c| == |s.c| && s'.c[..|l|] == l && (forall j | |l| <= j < |s.c| :: !s'.c[j].Open())
    && s'.rfds == s.rfds - ExpiredFds(s.c, now, cfg) && s'.wfds == s.wfds - ExpiredFds(s.c, now, cfg)
    && s'.maxfd == MaxFd(l, lfd) && s'.db == s.db && s'.dead == s.dead
  }

  // ----- the server as a transition system -----

  datatype Event =
    | Connect(fd: nat, nonblock: bool, now: int)
    | Input(i: nat, now: int, chunk: seq<byte>, env: Env)
    | NoInput(i: nat, now: int)
    | Output(i: nat, n: nat, now: int)
    | NoOutput(i: nat, now: int)
    | Hangup(i: nat)
    | Upkeep(now: int)

  /** One event of a living server.  The kernel hands out unused descriptors and reads and writes at
      least one byte and at most what it is asked for. */
  ghost predicate Step(s: Srv, e: Event, s': Srv, lfd: int, cfg: Config) {
    !s.dead &&
    match e
    case Connect(fd, nonblock, now) =>
      fd != lfd && (forall x <- s.c | x.Open() :: x.fd != fd) && s' == Accept(s, fd, nonblock, now)
    case Input(i, now, chunk, env) =>
      && i < |s.c| && s.c[i].Open() && env.Ok()
      && var s1 := ForRead(s, i, now, cfg);
         var rx := s1.c[i].rbuf.value;
         rx.Ok() && 0 < |chunk| <= rx.size - |rx.got| && s' == ReadAt(s1, i, chunk, env)
    case NoInput(i, now) => i < |s.c| && s.c[i].Open() && s' == ForRead(s, i, now, cfg)
    case Output(i, n, now) =>
      && i < |s.c| && s.c[i].Open() && s.c[i].tx.Ok() && s.c[i].tx.q != []
      && 0 < n <= MSG_HDR_SIZE + |s.c[i].tx.q[0].pay| - s.c[i].tx.off && s' == WriteAt(s, i, n, now)
    case NoOutput(i, now) => i < |s.c| && s.c[i].Open() && s' == Touch(s, i, now)
    case Hangup(i) => i < |s.c| && s.c[i].Open() && s' == Close(s, i)
    case Upkeep(now) => Upkept(s, s', now, lfd, cfg)
  }

  /** A run: `r[0]` is where it starts, event `k` leads from `r[k]` to `r[k + 1]`. */
  ghost predicate Run(r: seq<Srv>, es: seq<Event>, lfd: int, cfg: Config) {
    |r| == |es| + 1 && forall k | 0 <= k < |es| :: Step(r[k], es[k], r[k + 1], lfd, cfg)
  }
}
