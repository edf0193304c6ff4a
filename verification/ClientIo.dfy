/** What the client does around its messages: upkeep of its lists, commands on transfers, and the bytes on
    its connection, as functions (cltmain.c, transfer.c). */
module ClientIo {
  import opened Bytes
  import opened Message
  import opened Channel
  import opened ServerSpec
  import C = ClientSpec
  import opened ClientSpec

  // ----- lists -----

  const NS_PER_S := 1_000_000_000

  /** `upkeep_pending`: requests older than the response timeout are forgotten. */
  function KeptPending(l: seq<Msg>, timeout: int, now: int): (r: seq<Msg>)
    ensures forall m <- r :: m in l && m.ts / NS_PER_S + timeout >= now
    ensures forall m <- l | m.ts / NS_PER_S + timeout >= now :: m in r
  {
    if l == [] then []
    else
      var front := KeptPending(l[..|l| - 1], timeout, now);
      var m := l[|l| - 1];
      assert l == l[..|l| - 1] + [m];
      if m.ts / NS_PER_S + timeout < now then front else front + [m]
  }

  /** `transfer_upkeep`: entries without activity for longer than the timeout are cleared away. */
  function Kept(l: seq<Transfer>, timeout: int, now: int): (r: seq<Transfer>)
    ensures forall t <- r :: t in l && t.tact + timeout >= now
    ensures forall t <- l | t.tact + timeout >= now :: t in r
  {
    if l == [] then []
    else
      var front := Kept(l[..|l| - 1], timeout, now);
      var t := l[|l| - 1];
      assert l == l[..|l| - 1] + [t];
      if t.tact + timeout < now then front else front + [t]
  }

  /** `transfer_closeall` */
  function Closed(l: seq<Transfer>): seq<Transfer> {
    seq(|l|, i requires 0 <= i < |l| => l[i].(pos := None))
  }

  /** What `transfer_remove` is told to match; `None` stands for the asterisk. */
  datatype Mask = Mask(kind: Option<Kind>, rid: Option<u64>, oid: Option<u64>)
  {
    predicate Covers(t: Transfer) {
      (kind.None? || kind.value == t.kind) && (rid.None? || rid.value == t.rid) && (oid.None? || oid.value == t.oid)
    }
  }

  function Removed(l: seq<Transfer>, mask: Mask): seq<Transfer> {
    seq(|l|, i requires 0 <= i < |l| => if mask.Covers(l[i]) then Invalidated(l[i]) else l[i])
  }

  function Covered(l: seq<Transfer>, mask: Mask): nat {
    if l == [] then 0 else Covered(l[..|l| - 1], mask) + if mask.Covers(l[|l| - 1]) then 1 else 0
  }

  // ----- commands -----

  /** The `offer` command: an entry for a file that exists, and the message that announces it under `base`,
      the last component of its name. */
  function OfferFile(c: Clt, dest: u64, name: seq<byte>, base: seq<byte>, oid: u64, trf: u64, env: C.Env): C.Result {
    if !c.st.AuthOk? || name !in c.files || |c.files[name]| > MAX_OFF then (c, None)
    else
      var size: u64 := |c.files[name]|;
      var o := Transfer(Offer, dest, oid, Some(name), None, size, 0, None, env.now);
      Sending(c.(transfers := [o] + c.transfers), OfferMsg(dest, trf, env.ts, oid, base, size))
  }

  function OfferMsg(dest: u64, trf: u64, ts: u64, oid: u64, base: seq<byte>, size: u64): Msg {
    var m := AddAttr(Compose(OFFER_REQ, dest, trf, ts), OFFERID, Be(oid, 8));
    AddAttr(AddAttr(m, FILENAME, base + [0]), SIZE, Be(size, 8))
  }

  /** Housekeeping, now and then: a PING to the server while logged in, and what has timed out is cleared
      away. */
  function AfterUpkeep(c: Clt, respTimeout: int, offerTimeout: int, trf: u64, env: C.Env): C.Result {
    (c.(pending := KeptPending(c.pending, respTimeout, env.now), transfers := Kept(c.transfers, offerTimeout, env.now)),
     if c.st.AuthOk? then Some(Compose(PING_IND, 0, trf, env.ts)) else None)
  }

  // ----- answers to pending requests -----

  /** Whatever a client answers to a request of another, once the relay has stamped both with their senders: if
      it is a response, the pending entry of that request matches it. */
  lemma PeerResponsesMatch(c: Clt, q: Msg, r: u64, env: C.Env)
    requires IsReq(q.mtype)
    ensures var reply := Handle(c, q.(src := r), env).1;
            reply.Some? && IsRes(reply.value.mtype)
            ==> reply.value.dst == r && Answered(q, reply.value.(src := q.dst))
  {
    hide OnPing, OnOffer, OnGetFile, OnFileData, OnOfferRes, OnLoginRes, OnAuthRes, OnLogoutRes, OnAuthErr;
    if q.mtype == OFFER_REQ { OfferReply(c, q.(src := r), env); }
    if q.mtype == GETFILE_REQ { GetFileReply(c, q.(src := r), env); }
    PingReply(c, q.(src := r), env);
  }

  /** A response to that request. */
  predicate Responds(reply: Msg, m: Msg) {
    reply.mtype == ToRes(m.mtype) && reply.dst == m.src && reply.trf == m.trf
  }

  lemma PingReply(c: Clt, m: Msg, env: C.Env)
    ensures var reply := OnPing(c, m, env).1; reply.Some? && m.mtype == PING_REQ ==> Responds(reply.value, m)
  {
    hide EncAttr;
  }

  lemma OfferReply(c: Clt, m: Msg, env: C.Env)
    requires m.mtype == OFFER_REQ
    ensures var reply := OnOffer(c, m, env).1; reply.Some? && IsRes(reply.value.mtype) ==> Responds(reply.value, m)
  {
    hide NewDownload, EncAttr;
  }

  lemma GetFileReply(c: Clt, m: Msg, env: C.Env)
    requires m.mtype == GETFILE_REQ
    ensures var reply := OnGetFile(c, m, env).1; reply.Some? && IsRes(reply.value.mtype) ==> Responds(reply.value, m)
  {
    hide Attrs, FindTransfer, OfferRead, EncAttr, U64Of, Msg.Fits;
  }

  // ----- the connection -----

  /** The client with its connection: `off` bytes of the queue's head are sent. */
  datatype Conn = Conn(clt: Clt, off: nat, rbuf: Option<Rx>, open: bool)
  {
    predicate Ok() { Tx(clt.queue, off).Ok() && OkRbuf(rbuf) }
  }

  /** The connection is lost: the queue, the pending requests and the receive buffer stay. */
  function Dropped(s: Conn): Conn {
    s.(clt := s.clt.(st := Invalid, transfers := Closed(s.clt.transfers)), open := false)
  }

  function ReadSrv(s: Conn, rd: ReadResult, env: C.Env): Conn
    requires s.Ok()
  {
    var rx := Prepared(s.rbuf);
    match rd
    case ReadAgain => s.(rbuf := Some(rx))
    case ReadFailed => Dropped(s.(rbuf := Some(rx)))
    case Data(bytes) =>
      if bytes == [] then Dropped(s.(rbuf := Some(rx)))
      else
        match Feed(rx, bytes[..Min(|bytes|, rx.size - |rx.got|)])
        case Died => s.(rbuf := Some(rx), clt := s.clt.(dead := true))
        case Pending(rx') => s.(rbuf := Some(rx'))
        case Complete(m) => s.(rbuf := None, clt := C.ProcessSrvMsg(s.clt, m, env))
  }

  function WriteSrv(s: Conn, wr: WriteResult): Conn
    requires s.Ok() && s.clt.queue != []
  {
    match wr
    case WriteAgain => s
    case WriteFailed => Dropped(s)
    case Room(room) =>
      if room == 0 then Dropped(s)
      else
        var size := MSG_HDR_SIZE + |s.clt.queue[0].pay|;
        var n := Min(room, size - s.off);
        if s.off + n == size then s.(clt := Dequeue(s.clt), off := 0) else s.(off := s.off + n)
  }

  /** `handle_srvio`: one pass; the second result is what is left of the count of ready descriptors. */
  function HandleSrvIo(s: Conn, nset: int, readable: bool, writable: bool, rd: ReadResult, wr: WriteResult,
          env: C.Env): (Conn, int)
    requires s.Ok() && (writable ==> s.clt.queue != [])
  {
    if !s.open then (s, nset)
    else
      var s1 := if readable then ReadSrv(s, rd, env) else s;
      var left := if readable then nset - 1 else nset;
      if s1.clt.dead || !s1.open || left <= 0 || !writable then (s1, left)
      else
        ReadKeeps(s, rd, env);
        (WriteSrv(s1, wr), left - 1)
  }

  /** Handling a message only adds to the queue. */
  lemma QueueGrows(c: Clt, m: Msg, env: C.Env)
    ensures c.queue <= C.ProcessSrvMsg(c, m, env).queue
  {
    ReceiveQueue(c, m, env);
    hide Receive;
  }

  lemma ReceiveQueue(c: Clt, m: Msg, env: C.Env)
    ensures Receive(c, m, env).0.queue == c.queue
  {
    hide Handle, FindPending, IsRes;
    var k := FindPending(c.pending, m);
    HandleQueue(c, m, env);
    if k < |c.pending| { HandleQueue(c.(pending := c.pending[..k] + c.pending[k + 1..]), m, env); }
  }

  lemma HandleQueue(c: Clt, m: Msg, env: C.Env)
    ensures Handle(c, m, env).0.queue == c.queue
  {
    hide Attrs, FindTransfer, OfferRead, DownloadWrite, Renamed, GetFile, FileData, U64Of, ReadOffer, AuthRequest;
    hide ErrorResponse, AddAttr;
  }

  /** So reading keeps the connection in order, and a queue that select saw filled stays filled. */
  lemma ReadKeeps(s: Conn, rd: ReadResult, env: C.Env)
    requires s.Ok()
    ensures var s' := ReadSrv(s, rd, env); s'.Ok() && s.clt.queue <= s'.clt.queue && s'.off == s.off
  {
    hide Feed, C.ProcessSrvMsg;
    var rx := Prepared(s.rbuf);
    if rd.Data? && rd.bytes != [] {
      match Feed(rx, rd.bytes[..Min(|rd.bytes|, rx.size - |rx.got|)])
      case Complete(m) => QueueGrows(s.clt, m, env);
      case _ =>
    }
  }

  lemma WriteKeeps(s: Conn, wr: WriteResult)
    requires s.Ok() && s.clt.queue != []
    ensures WriteSrv(s, wr).Ok()
  {}

  /** Every pass keeps the connection in order; what it writes is the channel's next bytes, and a request that
      has gone out whole becomes pending, exactly when it leaves the queue. */
  lemma PassKeeps(s: Conn, nset: int, readable: bool, writable: bool, rd: ReadResult, wr: WriteResult, env: C.Env)
    requires s.Ok() && (writable ==> s.clt.queue != [])
    ensures HandleSrvIo(s, nset, readable, writable, rd, wr, env).0.Ok()
  {
    hide ReadSrv, WriteSrv;
    ReadKeeps(s, rd, env);
    if s.open && writable {
      var s1 := if readable then ReadSrv(s, rd, env) else s;
      WriteKeeps(s1, wr);
    }
  }

  lemma WritesNextBytes(s: Conn, room: nat)
    requires s.Ok() && s.clt.queue != [] && room > 0
    ensures var t := Tx(s.clt.queue, s.off);
            var n := Min(room, MSG_HDR_SIZE + |t.q[0].pay| - t.off);
            var s' := WriteSrv(s, Room(room));
            && Tx(s'.clt.queue, s'.off) == Written(t, n)
            && t.Unsent() == WrittenBytes(t, n) + Tx(s'.clt.queue, s'.off).Unsent()
            && s'.clt.pending == if |s'.clt.queue| < |s.clt.queue| && IsReq(t.q[0].mtype) then [t.q[0]] + s.clt.pending
                                 else s.clt.pending
  {
    var t := Tx(s.clt.queue, s.off);
    UnsentShrinks(t, Min(room, MSG_HDR_SIZE + |t.q[0].pay| - t.off));
  }
}
