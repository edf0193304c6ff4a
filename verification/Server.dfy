/** The relay server as the program keeps it: an array of client slots, two descriptor sets and the user
    database, all updated in place (srvmain.c).  Every method is proved to do what the function of the
    same purpose in ServerSpec.dfy or ServerIo.dfy says. */
module Server {
  import opened Bytes
  import opened Message
  import opened Channel
  import opened UserFile
  import opened UserDb
  import opened ServerSpec
  import opened ServerInv
  import opened ServerIo
  import D = Database

  class Relay {
    const clients: array<Client>
    var rfds: set<int>
    var wfds: set<int>
    var maxfd: int
    const db: D.Database
    var dead: bool
    const lfd: int
    const cfg: Config

    ghost function View(): Srv
      reads this, clients, db
    {
      Srv(clients[..], rfds, wfds, maxfd, db.View(), dead)
    }

    /** `init_server` and `udb_init`: unused slots, the listening socket in the read set. */
    constructor (lfd: int, maxClients: nat, cfg: Config, file: Option<seq<byte>>)
      requires lfd >= 0
      ensures fresh(clients) && fresh(db) && this.lfd == lfd && this.cfg == cfg
      ensures View() == Srv(seq(maxClients, _ => CLOSED), {lfd}, {}, lfd, Load(Db([], 1, file)), false)
    {
      this.lfd, this.cfg := lfd, cfg;
      clients := new Client[maxClients](_ => CLOSED);
      rfds, wfds, maxfd, dead := {lfd}, {}, lfd, false;
      db := new D.Database(file);
      new;
      var loaded := db.Load_();
    }

    method CloseClient(j: nat)
      requires j < clients.Length
      modifies this`rfds, this`wfds, clients
      ensures View() == Close(old(View()), j)
    {
      rfds := rfds - {clients[j].fd};
      wfds := wfds - {clients[j].fd};
      clients[j] := CLOSED;
    }

    /** A connection accepted on `fd`: the slot it got, or -1 if it was dropped. */
    method AcceptClient(fd: nat, nonblock: bool, now: int) returns (r: int)
      modifies this`rfds, this`maxfd, clients
      ensures View() == Accept(old(View()), fd, nonblock, now)
      ensures var k := FindFree(old(clients[..]));
              r == if fd < FD_SETSIZE && nonblock && k < clients.Length then k else -1
    {
      if FD_SETSIZE <= fd {
        return -1;
      }
      if !nonblock {
        return -1;
      }
      var i := 0;
      while i < clients.Length && 0 <= clients[i].fd
        invariant i <= clients.Length
        invariant FindFree(clients[..]) == i + FindFree(clients[i..])
      {
        assert clients[i..][1..] == clients[i + 1..];
        i := i + 1;
      }
      if i == clients.Length {
        return -1;
      }
      clients[i] := Client(fd, 0, None, None, PreLogin, now, None, Tx([], 0));
      rfds := rfds + {fd};
      if fd > maxfd {
        maxfd := fd;
      }
      return i;
    }

    method ResyncClient(j: nat, now: int)
      requires j < clients.Length
      modifies clients
      ensures clients[..] == old(clients[..])[j := Resynced(old(clients[j]), now, cfg)]
    {
      if clients[j].rbuf.Some? && now - clients[j].act > cfg.msgTimeout {
        clients[j] := clients[j].(rbuf := None);
      }
    }

    /** Closes what has timed out and compacts the array in place. */
    method Upkeep(now: int)
      modifies this`rfds, this`wfds, this`maxfd, clients
      ensures Upkept(old(View()), View(), now, lfd, cfg)
    {
      hide Survivors, MaxFd, ExpiredFds, Resynced, Expired;
      ghost var c0 := clients[..];
      SurvivorsNone(c0, now, cfg, lfd);
      maxfd := lfd;
      var i, j := 0, 0;
      while i < clients.Length
        invariant 0 <= j <= i <= clients.Length
        invariant clients[..j] == Survivors(c0[..i], now, cfg)
        invariant forall k | i <= k < clients.Length :: clients[k] == c0[k]
        invariant forall k | j <= k < i :: !clients[k].Open()
        invariant rfds == old(rfds) - ExpiredFds(c0[..i], now, cfg)
        invariant wfds == old(wfds) - ExpiredFds(c0[..i], now, cfg)
        invariant maxfd == MaxFd(Survivors(c0[..i], now, cfg), lfd)
      {
        ExpiredNext(c0, i, now, cfg);
        SurvivorsNext(c0, i, now, cfg, lfd);
        ghost var l := clients[..j];
        DisposeOrResync(i, now);
        if 0 <= clients[i].fd {
          if maxfd < clients[i].fd {
            maxfd := clients[i].fd;
          }
          if j != i {
            clients[j] := clients[i];
            clients[i] := clients[i].(fd := -1, st := Invalid);
          }
          assert clients[..j + 1] == l + [clients[j]];
          j := j + 1;
        }
        i := i + 1;
      }
      assert c0[..i] == c0;
    }

    /** The first half of an iteration of `upkeep`: a timed out client is closed, another resynced. */
    method DisposeOrResync(i: nat, now: int)
      requires i < clients.Length
      modifies this`rfds, this`wfds, clients
      ensures var c := old(clients[i]);
              && clients[i] == (if !c.Open() then c else if Expired(c, now, cfg) then CLOSED else Resynced(c, now, cfg))
              && rfds == old(rfds) - (if c.Open() && Expired(c, now, cfg) then {c.fd} else {})
              && wfds == old(wfds) - (if c.Open() && Expired(c, now, cfg) then {c.fd} else {})
      ensures forall k | 0 <= k < clients.Length && k != i :: clients[k] == old(clients[k])
    {
      if 0 <= clients[i].fd {
        if now - clients[i].act > cfg.connTimeout {
          CloseClient(i);
        } else {
          ResyncClient(i, now);
        }
      }
    }

    method EnqueueMsg(j: nat, m: Msg)
      requires j < clients.Length
      modifies this`wfds, clients
      ensures View() == EnqueueAt(old(View()), j, m)
    {
      var tx := clients[j].tx;
      clients[j] := clients[j].(tx := Tx(tx.q + [m], tx.off));
      wfds := wfds + {clients[j].fd};
    }

    // ----- messages to the server -----

    method ProcessRegister(i: nat, m: Msg, env: Env) returns (reply: Option<Msg>)
      requires i < clients.Length
      modifies db
      ensures (View(), reply) == Register(old(View()), i, m, env)
    {
      if clients[i].st != AuthOk {
        return Some(Err(m, SC_UNAUTHORIZED, env));
      }
      var av := First(m, PUBKEY);
      if av.None? {
        return Some(Err(m, SC_BAD_REQUEST, env));
      }
      var key := PLAINTEXT + CStr(av.value);
      var r := db.DropEntry(NameOf(clients[i]), env.dropOk);
      var pu := db.AddEntry(clients[i].id, NameOf(clients[i]), key, env.addOk);
      if pu.Some? {
        return Some(ServerSpec.Ok(m, env));
      }
      return Some(Err(m, SC_LOCKED, env));
    }

    method ProcessDrop(i: nat, m: Msg, env: Env) returns (reply: Option<Msg>)
      requires i < clients.Length
      modifies db
      ensures (View(), reply) == DropAccount(old(View()), i, m, env)
    {
      if clients[i].st != AuthOk {
        return Some(Err(m, SC_UNAUTHORIZED, env));
      }
      var r := db.DropEntry(NameOf(clients[i]), env.dropOk);
      if r != 0 {
        return Some(Err(m, SC_NOT_FOUND, env));
      }
      return Some(ServerSpec.Ok(m, env));
    }

    method NameTaken(name: seq<byte>) returns (taken: bool)
      ensures taken == NameInUse(clients[..], name)
    {
      var i := 0;
      while i < clients.Length
        invariant i <= clients.Length
        invariant forall k | 0 <= k < i :: !Uses(clients[k], name)
      {
        if 0 <= clients[i].fd && clients[i].name.Some? && SameNoCase(clients[i].name.value, name) {
          assert Uses(clients[..][i], name);
          return true;
        }
        i := i + 1;
      }
      return false;
    }

    method ProcessLogin(i: nat, m: Msg, env: Env) returns (reply: Option<Msg>)
      requires i < clients.Length
      modifies db, clients
      ensures (View(), reply) == Login(old(View()), i, m, env)
    {
      hide LookupName, GetTempId, NameInUse, First, Err, ServerSpec.Ok, AddAttr, Response, CStr;
      var av := First(m, USERNAME);
      if clients[i].st != PreLogin || av.None? {
        return Some(Err(m, SC_BAD_REQUEST, env));
      }
      var name := CStr(av.value);
      var pu := db.LookupName(name);
      if pu.None? {
        var taken := NameTaken(name);
        if taken {
          return Some(Err(m, SC_CONFLICT, env));
        }
        var id := db.GetTempId();
        clients[i] := clients[i].(st := AuthOk, id := id, name := Some(name), key := None);
        return Some(ServerSpec.Ok(m, env));
      }
      clients[i] := clients[i].(st := LoginOk, id := pu.value.id, name := Some(pu.value.name));
      if PLAINTEXT <= pu.value.key {
        clients[i] := clients[i].(key := Some(pu.value.key));
        assert clients[..] == old(clients[..])[i := clients[i]];
        return Some(AddAttr(Response(m, env.ts), CHALLENGE, PLAINTEXT + [0]));
      }
      return Some(Err(m, SC_METHOD_NOT_ALLOWED, env));
    }

    /** Closes every other open slot with the id of slot `i`. */
    method CloseOthers(i: nat)
      requires i < clients.Length
      modifies this`rfds, this`wfds, clients
      ensures View() == CloseDoomed(old(View()), i, old(clients[i].id))
    {
      ghost var c0 := clients[..];
      ghost var id := clients[i].id;
      var j := 0;
      while j < clients.Length
        invariant j <= clients.Length && clients[i] == c0[i]
        invariant forall k | j <= k < clients.Length :: clients[k] == c0[k]
        invariant forall k | 0 <= k < j :: clients[k] == if Doomed(c0, i, id, k) then CLOSED else c0[k]
        invariant rfds == old(rfds) - GoneFds(c0, i, id, j)
        invariant wfds == old(wfds) - GoneFds(c0, i, id, j)
      {
        GoneNext(c0, i, id, j);
        if clients[i].id == clients[j].id && i != j && 0 <= clients[j].fd {
          CloseClient(j);
        }
        j := j + 1;
      }
      assert clients[..] == CloseDoomed(old(View()), i, id).c;
    }

    method ProcessAuth(i: nat, m: Msg, env: Env) returns (reply: Option<Msg>)
      requires i < clients.Length
      modifies this`rfds, this`wfds, this`dead, clients
      ensures (View(), reply) == Auth(old(View()), i, m, env)
    {
      var av := First(m, DIGEST);
      if clients[i].st != LoginOk || av.None? {
        clients[i] := clients[i].(st := PreLogin);
        return Some(Err(m, SC_BAD_REQUEST, env));
      }
      if clients[i].key.None? {
        dead := true;
        return None;
      }
      if CStr(av.value) != clients[i].key.value {
        clients[i] := clients[i].(st := PreLogin);
        return Some(Err(m, SC_UNAUTHORIZED, env));
      }
      CloseDoomedSpares(View(), i, clients[i].id);
      CloseOthers(i);
      clients[i] := clients[i].(st := AuthOk);
      return Some(ServerSpec.Ok(m, env));
    }

    method ProcessPeerlist(m: Msg, env: Env) returns (reply: Option<Msg>)
      modifies this`dead
      ensures (View(), reply) == Peerlist(old(View()), m, env)
    {
      var r := Response(m, env.ts);
      var i := 0;
      while i < clients.Length
        invariant i <= clients.Length && View() == old(View())
        invariant r == Response(m, env.ts).(pay := EncAttrs(PeerAttrs(clients[..i]))) && r.Fits()
      {
        hide EncAttrs, EncAttr, PeerAttrs;
        PeerNext(clients[..], i, Response(m, env.ts));
        if 0 <= clients[i].fd && clients[i].st == AuthOk {
          r := AddAttr(AddAttr(r, PEERID, Be(clients[i].id, 8)), PEERNAME, NameOf(clients[i]) + [0]);
          if |r.pay| > MSG_MAX_PAY_SIZE {
            PeerAttrsGrow(clients[..], i + 1);
            dead := true;
            return None;
          }
        }
        i := i + 1;
      }
      assert clients[..i] == clients[..];
      return Some(r);
    }

    method ProcessLogout(i: nat, m: Msg, env: Env) returns (reply: Option<Msg>)
      requires i < clients.Length
      modifies clients
      ensures (View(), reply) == Logout(old(View()), i, m, env)
    {
      clients[i] := clients[i].(st := PreLogin, id := 0, name := None, key := None);
      return Some(ServerSpec.Ok(m, env));
    }

    method ProcessServerMsg(i: nat, m: Msg, env: Env) returns (reply: Option<Msg>)
      requires i < clients.Length
      modifies this`rfds, this`wfds, this`dead, clients, db
      ensures (View(), reply) == ServerMsg(old(View()), i, m, env)
    {
      hide Register, DropAccount, Login, Auth, Logout, Peerlist, Err, ServerSpec.Ok, Response, AddAttr;
      var t := m.mtype;
      if clients[i].st != AuthOk && t != LOGIN_REQ && t != AUTH_REQ && t != REGISTER_REQ {
        return Some(Err(m, SC_FORBIDDEN, env));
      }
      if t == PING_IND {
        return None;
      } else if t == PING_REQ {
        return Some(AddAttr(Response(m, env.ts), OK, []));
      } else if t == REGISTER_REQ {
        reply := ProcessRegister(i, m, env);
      } else if t == DROP_REQ {
        reply := ProcessDrop(i, m, env);
      } else if t == LOGIN_REQ {
        reply := ProcessLogin(i, m, env);
      } else if t == AUTH_REQ {
        reply := ProcessAuth(i, m, env);
      } else if t == LOGOUT_REQ {
        reply := ProcessLogout(i, m, env);
      } else if t == PEERLIST_REQ {
        reply := ProcessPeerlist(m, env);
      } else if IsReq(t) {
        return Some(Err(m, SC_I_AM_A_TEAPOT, env));
      } else {
        return None;
      }
    }

    // ----- other messages -----

    method ProcessBroadcastMsg(i: nat, m: Msg, env: Env) returns (reply: Option<Msg>)
      requires i < clients.Length
      ensures (View(), reply) == BroadcastMsg(old(View()), i, m, env)
    {
      if clients[i].st != AuthOk {
        return Some(Err(m, SC_FORBIDDEN, env));
      }
      if IsReq(m.mtype) {
        return Some(Err(m, SC_NOT_IMPLEMENTED, env));
      }
      return None;
    }

    method ProcessForwardMsg(i: nat, m: Msg, env: Env) returns (reply: Option<Msg>)
      requires i < clients.Length
      modifies this`wfds, clients
      ensures (View(), reply) == ForwardMsg(old(View()), i, m, env)
    {
      if clients[i].st != AuthOk {
        return Some(Err(m, SC_FORBIDDEN, env));
      }
      var k := 0;
      while k < clients.Length && !(0 <= clients[k].fd && clients[k].st == AuthOk && m.dst == clients[k].id)
        invariant k <= clients.Length
        invariant FindPeer(clients[..], m.dst) == k + FindPeer(clients[k..], m.dst)
      {
        assert clients[k..][1..] == clients[k + 1..];
        k := k + 1;
      }
      if k == clients.Length {
        return Some(Err(m, SC_MISDIRECTED_REQUEST, env));
      }
      if Forwardable(m.mtype) {
        EnqueueMsg(k, m);
        return None;
      }
      if IsReq(m.mtype) {
        return Some(Err(m, SC_BAD_REQUEST, env));
      }
      return None;
    }

    method ProcessMessage(i: nat, m: Msg, env: Env)
      requires i < clients.Length
      modifies this`rfds, this`wfds, this`dead, clients, db
      ensures View() == ProcessMsg(old(View()), i, m, env)
    {
      hide ServerMsg, BroadcastMsg, ForwardMsg;
      var m' := m;
      if clients[i].st == LoginOk || clients[i].st == AuthOk {
        m' := m'.(src := clients[i].id);
      }
      var reply;
      if m.dst == 0 {
        reply := ProcessServerMsg(i, m', env);
      } else if m.dst == BROADCAST {
        reply := ProcessBroadcastMsg(i, m', env);
      } else {
        reply := ProcessForwardMsg(i, m', env);
      }
      if reply.Some? {
        EnqueueMsg(i, reply.value);
      }
    }

    // ----- input and output -----

    /** Bytes have arrived in the receive buffer of slot `i`. */
    method TakeBytes(i: nat, chunk: seq<byte>, env: Env)
      requires i < clients.Length && clients[i].rbuf.Some? && clients[i].rbuf.value.Ok()
      requires 0 < |chunk| <= clients[i].rbuf.value.size - |clients[i].rbuf.value.got|
      modifies this`rfds, this`wfds, this`dead, clients, db
      ensures View() == ReadAt(old(View()), i, chunk, env)
    {
      hide ProcessMsg, Unmarshal, HdrGetPaylen;
      var got := clients[i].rbuf.value.got + chunk;
      var size := clients[i].rbuf.value.size;
      if |got| == size && |got| == MSG_HDR_SIZE {
        var paylen := HdrGetPaylen(got);
        if paylen > 0 {
          if paylen > MSG_MAX_PAY_SIZE {
            dead := true;
            return;
          }
          size := MSG_HDR_SIZE + paylen;
        }
      }
      if |got| == size {
        clients[i] := clients[i].(rbuf := None);
        ProcessMessage(i, Unmarshal(got), env);
      } else {
        clients[i] := clients[i].(rbuf := Some(Rx(got, size)));
      }
    }

    method ReadReady(i: nat, io: Io, now: int)
      requires i < clients.Length && clients[i].Open() && FdInv(View(), lfd)
      modifies this`rfds, this`wfds, this`dead, clients, db
      ensures View() == ReadHalf(old(View()), i, io, now, lfd, cfg)
    {
      hide ReadAt, FdInv;
      ReadKeepsFds(View(), i, now, [], io.env, lfd, cfg);
      ghost var s0 := View();
      ResyncClient(i, now);
      var rx := Prepared(clients[i].rbuf);
      clients[i] := clients[i].(rbuf := Some(rx), act := now);
      assert View() == ForRead(s0, i, now, cfg);
      if io.rd.ReadAgain? {
        return;
      }
      if io.rd.ReadFailed? || io.rd.bytes == [] {
        CloseClient(i);
        assert clients[..] == s0.c[i := CLOSED];
        return;
      }
      var chunk := io.rd.bytes[..Min(|io.rd.bytes|, rx.size - |rx.got|)];
      TakeBytes(i, chunk, io.env);
    }

    method WriteReady(i: nat, io: Io, now: int)
      requires i < clients.Length && clients[i].Open() && FdInv(View(), lfd) && clients[i].tx.q != []
      modifies this`rfds, this`wfds, clients
      ensures View() == WriteHalf(old(View()), i, io, now, lfd)
    {
      hide Marshal;
      ghost var s0 := View();
      clients[i] := clients[i].(act := now);
      if io.wr.WriteAgain? {
        return;
      }
      if io.wr.WriteFailed? || io.wr.n == 0 {
        CloseClient(i);
        assert clients[..] == s0.c[i := CLOSED];
        return;
      }
      var tx := clients[i].tx;
      var size := MSG_HDR_SIZE + |tx.q[0].pay|;
      var n := Min(io.wr.n, size - tx.off);
      if tx.off + n == size {
        Dequeue(i);
      } else {
        clients[i] := clients[i].(tx := Tx(tx.q, tx.off + n));
      }
    }

    /** `dequeue_msg`: an emptied queue leaves the write set. */
    method Dequeue(i: nat)
      requires i < clients.Length && clients[i].tx.q != []
      modifies this`wfds, clients
      ensures clients[..] == old(clients[..])[i := old(clients[i]).(tx := Tx(old(clients[i]).tx.q[1..], 0))]
      ensures wfds == if |old(clients[i]).tx.q| == 1 then old(wfds) - {old(clients[i]).fd} else old(wfds)
    {
      clients[i] := clients[i].(tx := Tx(clients[i].tx.q[1..], 0));
      if clients[i].tx.q == [] {
        wfds := wfds - {clients[i].fd};
      }
    }

    /** One pass over the ready descriptors. */
    method HandleIo(nset: int, rset: set<int>, wset: set<int>, ios: seq<Io>, now: int) returns (left: int)
      requires FdInv(View(), lfd) && |ios| == clients.Length && wset <= wfds && !dead
      modifies this, clients, db
      ensures Snapshot(old(View()), 0, wset)
      ensures (View(), left) == IoPass(old(View()), 0, nset, rset, wset, ios, now, lfd, cfg)
      ensures FdInv(View(), lfd)
    {
      hide FdInv, ReadHalf, WriteHalf;
      SelectSnapshot(View(), wset, lfd);
      left := nset;
      var i := 0;
      while i < clients.Length && 0 < left && !dead
        invariant i <= clients.Length && FdInv(View(), lfd) && Snapshot(View(), i, wset)
        invariant IoPass(View(), i, left, rset, wset, ios, now, lfd, cfg)
                  == IoPass(old(View()), 0, nset, rset, wset, ios, now, lfd, cfg)
      {
        ghost var s := View();
        if 0 <= clients[i].fd {
          var fd := clients[i].fd;
          if fd in rset {
            left := left - 1;
            ReadReady(i, ios[i], now);
          }
          ghost var s1 := View();
          GainsKeepSnapshot(s, s1, i, wset);
          if !dead && 0 <= clients[i].fd && clients[i].fd in wset {
            left := left - 1;
            assert s1.c[i].tx.q != [];
            WriteReady(i, ios[i], now);
          }
          assert View() == IoSlot(s, i, rset, wset, ios[i], now, lfd, cfg);
        }
        i := i + 1;
      }
    }
  }

  function GoneFds(c: seq<Client>, i: nat, id: u64, n: nat): set<int>
    requires n <= |c|
  {
    set j | 0 <= j < n && Doomed(c, i, id, j) :: c[j].fd
  }

  lemma GoneNext(c: seq<Client>, i: nat, id: u64, n: nat)
    requires n < |c|
    ensures GoneFds(c, i, id, n + 1) == GoneFds(c, i, id, n) + if Doomed(c, i, id, n) then {c[n].fd} else {}
  {}

  lemma SurvivorsNone(c: seq<Client>, now: int, cfg: Config, lfd: int)
    ensures Survivors(c[..0], now, cfg) == [] && MaxFd([], lfd) == lfd && ExpiredFds(c[..0], now, cfg) == {}
  {}

  lemma SurvivorsNext(c: seq<Client>, i: nat, now: int, cfg: Config, lfd: int)
    requires i < |c|
    ensures var l, q := Survivors(c[..i], now, cfg), Resynced(c[i], now, cfg);
            && q.fd == c[i].fd
            && Survivors(c[..i + 1], now, cfg) == (if Stays(c[i], now, cfg) then l + [q] else l)
            && MaxFd(l + [q], lfd) == if q.fd > MaxFd(l, lfd) then q.fd else MaxFd(l, lfd)
  {
    assert c[..i + 1][..i] == c[..i];
    var l, q := Survivors(c[..i], now, cfg), Resynced(c[i], now, cfg);
    assert l + [] == l && (l + [q])[..|l|] == l;
  }

  lemma ExpiredNext(c: seq<Client>, i: nat, now: int, cfg: Config)
    requires i < |c|
    ensures ExpiredFds(c[..i + 1], now, cfg)
         == ExpiredFds(c[..i], now, cfg) + if c[i].Open() && Expired(c[i], now, cfg) then {c[i].fd} else {}
  {
    var a, b := c[..i], c[..i + 1];
    assert forall j | 0 <= j < i :: a[j] == c[j];
    assert forall j | 0 <= j <= i :: b[j] == c[j];
  }

  /** One more slot of the peer list, as it grows in the reply `m`. */
  lemma PeerNext(c: seq<Client>, i: nat, m: Msg)
    requires i < |c|
    ensures var r, r' := m.(pay := EncAttrs(PeerAttrs(c[..i]))), m.(pay := EncAttrs(PeerAttrs(c[..i + 1])));
            r' == if c[i].Peer() then AddAttr(AddAttr(r, PEERID, Be(c[i].id, 8)), PEERNAME, NameOf(c[i]) + [0]) else r
    ensures c[..0] == [] && EncAttrs(PeerAttrs([])) == []
  {
    assert c[..i + 1][..i] == c[..i];
    if c[i].Peer() {
      hide EncAttr;
      var l := PeerAttrs(c[..i]);
      var a, b := Attr(PEERID, Be(c[i].id, 8)), Attr(PEERNAME, NameOf(c[i]) + [0]);
      EncAttrsSnoc(l, a);
      EncAttrsSnoc(l + [a], b);
      assert l + [a] + [b] == l + [a, b];
    }
  }

  /** A longer array lists no fewer peers. */
  lemma {:induction false} PeerAttrsGrow(c: seq<Client>, n: nat)
    requires n <= |c|
    ensures |EncAttrs(PeerAttrs(c))| >= |EncAttrs(PeerAttrs(c[..n]))|
    decreases |c|
  {
    hide PeerAttrs, EncAttrs;
    if n == |c| {
      assert c[..n] == c;
    } else {
      var k := |c| - 1;
      PeerAttrsGrow(c[..k], n);
      assert c[..k][..n] == c[..n];
      assert c[..k + 1] == c;
      PeerNext(c, k, Msg(0, 0, 0, 0, 0, 0, []));
    }
  }
}
