/** What one message can carry: when the client ends over it, and that everything it queues fits. */
module ClientLimits {
  import opened Bytes
  import opened Message
  import opened Channel
  import opened ServerSpec
  import C = ClientSpec
  import opened ClientSpec
  import opened ClientIo
  import opened TransferFacts

  // ----- the end of the process -----

  /** The number an attribute carries, 0 without it. */
  function NumberAt(l: seq<Attr>, k: nat, t: u16): u64 {
    if AttrAt(l, k, t).Some? then U64Of(l[k].val) else 0
  }

  /** A request for an offered file, at an offset that a file can have, that asks either for more than can be
      allocated, whatever the file holds, or for more than one message can carry, of a file that has more and
      reads more at once. */
  ghost predicate TooMuch(c: Clt, m: Msg, env: C.Env) {
    var l := Attrs(m);
    && c.st.AuthOk? && m.mtype == GETFILE_REQ && AttrAt(l, 0, OFFERID).Some?
    && var k := FindTransfer(c.transfers, Offer, m.src, U64Of(l[0].val));
       k < |c.transfers|
       && var name := c.transfers[k].name;
          && name.Some? && name.value in c.files
          && NumberAt(l, 1, OFFSET) <= MAX_OFF
          && (|| NumberAt(l, 2, SIZE) > env.mem
              || (&& NumberAt(l, 1, OFFSET) + MAX_DATA_SIZE < |c.files[name.value]|
                  && NumberAt(l, 2, SIZE) > MAX_DATA_SIZE && env.readLen > MAX_DATA_SIZE))
  }

  /** A challenge for a password that no AUTH request can carry. */
  ghost predicate KeyTooLong(c: Clt, m: Msg) {
    && c.st.PreLogin? && m.mtype == LOGIN_RES && m.src == 0 && FindPending(c.pending, m) < |c.pending|
    && AttrAt(Attrs(m), 0, CHALLENGE).Some? && PLAINTEXT <= Attrs(m)[0].val
    && |c.pubkey| > MSG_MAX_PAY_SIZE - 20
  }

  lemma AuthFits(trf: u64, ts: u64, pubkey: seq<byte>)
    ensures AuthRequest(trf, ts, pubkey).Fits() <==> |pubkey| <= MSG_MAX_PAY_SIZE - 20
  {
    hide Be;
    assert |PLAINTEXT| == 11;
    assert |AuthRequest(trf, ts, pubkey).pay| == 8 + Roundup8(|pubkey| + 12);
  }

  lemma ReadMuch(o: Transfer, files: Files, off: u64, size: u64, readLen: nat, mem: nat)
    requires size != 0
    ensures var data := OfferRead(o, files, off, size, readLen, mem).1;
            data.Some? && |data.value| > MAX_DATA_SIZE <==>
              && size <= mem && o.name.Some? && o.name.value in files && off <= MAX_OFF
              && off + MAX_DATA_SIZE < |files[o.name.value]| && size > MAX_DATA_SIZE && readLen > MAX_DATA_SIZE
  {}

  lemma GetFileDies(c: Clt, m: Msg, env: C.Env)
    requires m.mtype == GETFILE_REQ
    ensures OnGetFile(c, m, env).0.dead <==> c.dead || TooMuch(c, m, env)
  {
    var l := Attrs(m);
    if c.st.AuthOk? && AttrAt(l, 0, OFFERID).Some? {
      var k := FindTransfer(c.transfers, Offer, m.src, U64Of(l[0].val));
      if k < |c.transfers| {
        var o := c.transfers[k].(tact := env.now);
        var offset, size := NumberAt(l, 1, OFFSET), NumberAt(l, 2, SIZE);
        if size != 0 {
          ReadMuch(o, c.files, offset, size, env.readLen, env.mem);
          var data := OfferRead(o, c.files, offset, size, env.readLen, env.mem).1;
          if data.Some? { PieceFitsExactly(m.src, m.trf, env.ts, U64Of(l[0].val), data.value); }
        }
      }
    }
    hide Attrs, FindTransfer, OfferRead, FileData, U64Of, ErrorResponse, Msg.Fits;
  }

  lemma LoginResDies(c: Clt, m: Msg, env: C.Env)
    ensures OnLoginRes(c, m, env).0.dead <==>
              || c.dead
              || (&& c.st.PreLogin? && m.src == 0
                  && AttrAt(Attrs(m), 0, CHALLENGE).Some? && PLAINTEXT <= Attrs(m)[0].val
                  && |c.pubkey| > MSG_MAX_PAY_SIZE - 20)
  {
    AuthFits(m.trf, env.ts, c.pubkey);
    hide Attrs, AuthRequest, Msg.Fits;
  }

  /** The client ends exactly over a request for too much, or a challenge it cannot answer. */
  lemma ClientDies(c: Clt, m: Msg, env: C.Env)
    ensures C.ProcessSrvMsg(c, m, env).dead <==> c.dead || TooMuch(c, m, env) || KeyTooLong(c, m)
  {
    var k := FindPending(c.pending, m);
    var c1 := if IsRes(m.mtype) && k < |c.pending| then c.(pending := c.pending[..k] + c.pending[k + 1..]) else c;
    HandleDies(c1, m, env);
    assert IsRes(LOGIN_RES) && !IsRes(GETFILE_REQ);
    hide Attrs, FindTransfer, FindPending, U64Of, Handle;
  }

  /** The size alone can end the client: one byte offered, half of the address space asked for. */
  lemma SizeEndsClient(c: Clt, q: u64, dst: u64, trf: u64, ts: u64, oid: u64, b: byte, env: C.Env)
    requires c.st.AuthOk? && Offers(c, q, oid, [b]) && env.mem < 0x8000_0000_0000_0000
    ensures C.ProcessSrvMsg(c, GetFile(dst, trf, ts, oid, 0, 0x8000_0000_0000_0000).(src := q), env).dead
  {
    var m := GetFile(dst, trf, ts, oid, 0, 0x8000_0000_0000_0000).(src := q);
    GetFileAttrs(dst, trf, ts, oid, 0, 0x8000_0000_0000_0000);
    assert Attrs(m) == Attrs(GetFile(dst, trf, ts, oid, 0, 0x8000_0000_0000_0000));
    U64OfBe(oid); U64OfBe(0); U64OfBe(0x8000_0000_0000_0000);
    ClientDies(c, m, env);
    hide Attrs, FindTransfer, C.ProcessSrvMsg, U64Of, Be;
  }

  lemma HandleDies(c: Clt, m: Msg, env: C.Env)
    ensures Handle(c, m, env).0.dead
            <==> c.dead || TooMuch(c, m, env) || (m.mtype == LOGIN_RES && OnLoginRes(c, m, env).0.dead)
    ensures OnLoginRes(c, m, env).0.dead <==>
              || c.dead
              || (&& c.st.PreLogin? && m.src == 0
                  && AttrAt(Attrs(m), 0, CHALLENGE).Some? && PLAINTEXT <= Attrs(m)[0].val
                  && |c.pubkey| > MSG_MAX_PAY_SIZE - 20)
  {
    LoginResDies(c, m, env);
    if m.mtype == GETFILE_REQ {
      GetFileDies(c, m, env);
      HandleIs(c, m, env);
    } else if m.mtype == LOGIN_RES {
      HandleIs(c, m, env);
    } else {
      HandleLives(c, m, env);
    }
    hide Attrs, FindTransfer, OnGetFile, OnLoginRes, U64Of, Handle;
  }

  lemma HandleIs(c: Clt, m: Msg, env: C.Env)
    ensures m.mtype == GETFILE_REQ ==> Handle(c, m, env) == OnGetFile(c, m, env)
    ensures m.mtype == LOGIN_RES ==> Handle(c, m, env) == OnLoginRes(c, m, env)
  {
    hide OnGetFile, OnLoginRes;
  }

  lemma HandleLives(c: Clt, m: Msg, env: C.Env)
    requires m.mtype != GETFILE_REQ && m.mtype != LOGIN_RES
    ensures Handle(c, m, env).0.dead == c.dead
  {
    hide Attrs, FindTransfer, OnGetFile, OnLoginRes, DownloadWrite, ReadOffer, Renamed, GetFile, U64Of;
  }

  /** And a read ends it exactly over a header with a length beyond the limit, or such a message. */
  lemma ReadDies(s: Conn, rd: ReadResult, env: C.Env)
    requires s.Ok()
    ensures ReadSrv(s, rd, env).clt.dead <==>
              || s.clt.dead
              || (&& rd.Data? && rd.bytes != []
                  && var rx := Prepared(s.rbuf);
                     var chunk := rd.bytes[..Min(|rd.bytes|, rx.size - |rx.got|)];
                     || (|rx.got + chunk| == MSG_HDR_SIZE && HdrGetPaylen(rx.got + chunk) > MSG_MAX_PAY_SIZE)
                     || match Feed(rx, chunk)
                        case Complete(m) => TooMuch(s.clt, m, env) || KeyTooLong(s.clt, m)
                        case _ => false)
  {
    hide Feed, C.ProcessSrvMsg, TooMuch, KeyTooLong, HdrGetPaylen;
    if rd.Data? && rd.bytes != [] {
      var rx := Prepared(s.rbuf);
      match Feed(rx, rd.bytes[..Min(|rd.bytes|, rx.size - |rx.got|)])
      case Complete(m) => ClientDies(s.clt, m, env);
      case _ =>
    }
  }

  // ----- everything queued fits -----

  lemma ErrorFits(m: Msg, code: u64, env: C.Env)
    requires env.Ok()
    ensures ErrorResponse(m, code, env.text, env.ts).Fits()
  {
    hide Be;
  }

  lemma SmallFits(dst: u64, trf: u64, ts: u64, oid: u64, offset: u64, size: u64)
    ensures AddAttr(Compose(PING_RES, dst, trf, ts), OK, []).Fits()
    ensures AddAttr(AddAttr(Compose(OFFER_RES, dst, trf, ts), OFFERID, Be(oid, 8)), OK, []).Fits()
    ensures FileData(dst, trf, ts, oid, []).Fits() && GetFile(dst, trf, ts, oid, offset, size).Fits()
  {
    hide Be;
  }

  ghost predicate ReplyFits(r: C.Result) { r.1.Some? ==> r.1.value.Fits() }

  lemma GetFileFits(c: Clt, m: Msg, env: C.Env)
    requires env.Ok()
    ensures ReplyFits(OnGetFile(c, m, env))
  {
    ErrorFits(m, SC_NOT_FOUND, env);
    ErrorFits(m, SC_RANGE_NOT_SATISFIABLE, env);
    var l := Attrs(m);
    if AttrAt(l, 0, OFFERID).Some? { SmallFits(m.src, m.trf, env.ts, U64Of(l[0].val), 0, 0); }
    hide Attrs, FindTransfer, OfferRead, FileData, U64Of, ErrorResponse, Msg.Fits;
  }

  lemma FileDataFits(c: Clt, m: Msg, env: C.Env)
    ensures ReplyFits(OnFileData(c, m, env))
  {
    forall dst, oid, offset, size
      ensures GetFile(dst, env.rnd, env.ts, oid, offset, size).Fits()
    {
      SmallFits(dst, env.rnd, env.ts, oid, offset, size);
    }
    hide Attrs, FindTransfer, DownloadWrite, Renamed, GetFile, U64Of, Msg.Fits, Chunk;
  }

  lemma OfferResFits(c: Clt, m: Msg, env: C.Env)
    requires env.Ok()
    ensures ReplyFits(OnOffer(c, m, env)) && ReplyFits(OnPing(c, m, env))
  {
    ErrorFits(m, SC_BAD_REQUEST, env);
    SmallFits(m.src, m.trf, env.ts, NewDownload(m, env).oid, 0, 0);
    hide Attrs, NewDownload, ErrorResponse, AddAttr, Msg.Fits;
  }

  lemma HandleFits(c: Clt, m: Msg, env: C.Env)
    requires env.Ok()
    ensures ReplyFits(Handle(c, m, env)) && Handle(c, m, env).0.queue == c.queue
  {
    GetFileFits(c, m, env);
    FileDataFits(c, m, env);
    OfferResFits(c, m, env);
    HandleQueue(c, m, env);
    hide Attrs, OnOffer, OnGetFile, OnFileData, OnPing, AuthRequest, Msg.Fits;
  }

  lemma QueuedFits(c: Clt, reply: Option<Msg>)
    requires AllFit(c.queue) && ReplyFits((c, reply))
    ensures AllFit(Queued(c, reply).queue)
  {
    hide Msg.Fits;
  }

  /** Whatever message arrives, what the client queues fits. */
  lemma ProcessFits(c: Clt, m: Msg, env: C.Env)
    requires env.Ok() && AllFit(c.queue)
    ensures AllFit(C.ProcessSrvMsg(c, m, env).queue)
  {
    hide AllFit, ReplyFits, FindPending, Handle, Queued;
    var k := FindPending(c.pending, m);
    var c1 := if IsRes(m.mtype) && k < |c.pending| then c.(pending := c.pending[..k] + c.pending[k + 1..]) else c;
    HandleFits(c1, m, env);
    QueuedFits(Handle(c1, m, env).0, Handle(c1, m, env).1);
    assert Queued(c, None) == c by { Unqueued(c); }
    hide IsRes;
  }

  lemma Unqueued(c: Clt)
    ensures Queued(c, None) == c
  {}

  /** So do the requests of the commands; `offer` ends the client for the name of a file that no message can
      carry. */
  lemma CommandsFit(c: Clt, rid: u64, oid: u64, dest: u64, name: seq<byte>, base: seq<byte>, trf: u64, env: C.Env)
    ensures ReplyFits(AcceptOffer(c, rid, oid, env)) && AcceptOffer(c, rid, oid, env).0.dead == c.dead
    ensures ReplyFits(OfferFile(c, dest, name, base, oid, trf, env))
    ensures OfferFile(c, dest, name, base, oid, trf, env).0.dead <==>
              || c.dead
              || (c.st.AuthOk? && name in c.files && |c.files[name]| <= MAX_OFF && |base| > MSG_MAX_PAY_SIZE - 41)
  {
    forall dst, offset, size
      ensures GetFile(dst, env.rnd, env.ts, oid, offset, size).Fits()
    {
      SmallFits(dst, env.rnd, env.ts, oid, offset, size);
    }
    var size: u64 := if name in c.files && |c.files[name]| <= MAX_OFF then |c.files[name]| else 0;
    OfferMsgFits(dest, trf, env.ts, oid, base, size);
    hide FindTransfer, DownloadWrite, DownloadResume, GetFile, OfferMsg, Msg.Fits, Chunk;
  }

  lemma OfferMsgFits(dest: u64, trf: u64, ts: u64, oid: u64, base: seq<byte>, size: u64)
    ensures OfferMsg(dest, trf, ts, oid, base, size).Fits() <==> |base| <= MSG_MAX_PAY_SIZE - 41
  {
    hide Be;
    assert |OfferMsg(dest, trf, ts, oid, base, size).pay| == 40 + Roundup8(|base| + 1);
  }

  /** Every pass over the connection keeps the queue so. */
  lemma PassFits(s: Conn, nset: int, readable: bool, writable: bool, rd: ReadResult, wr: WriteResult, env: C.Env)
    requires s.Ok() && (writable ==> s.clt.queue != []) && env.Ok() && AllFit(s.clt.queue)
    ensures AllFit(HandleSrvIo(s, nset, readable, writable, rd, wr, env).0.clt.queue)
  {
    ReadKeeps(s, rd, env);
    ReadFits(s, rd, env);
    hide ReadSrv, Msg.Fits;
  }

  lemma ReadFits(s: Conn, rd: ReadResult, env: C.Env)
    requires s.Ok() && env.Ok() && AllFit(s.clt.queue)
    ensures AllFit(ReadSrv(s, rd, env).clt.queue)
  {
    hide Feed, C.ProcessSrvMsg, AllFit;
    var rx := Prepared(s.rbuf);
    if rd.Data? && rd.bytes != [] {
      match Feed(rx, rd.bytes[..Min(|rd.bytes|, rx.size - |rx.got|)])
      case Complete(m) => ProcessFits(s.clt, m, env);
      case _ =>
    }
  }
}
