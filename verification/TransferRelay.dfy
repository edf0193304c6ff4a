/** From one client through the server to another: what clients send each other arrives, and does there what it is
    for. */
module TransferRelay {
  import opened Bytes
  import opened Message
  import S = ServerSpec
  import opened ServerIds
  import opened ServerAnswers
  import opened ClientSpec
  import opened ClientIo
  import opened ClientLimits
  import opened ClientAnswers
  import opened TransferFacts
  import opened TransferOffers

  // ----- whatever a client sends -----

  /** What a client puts into its queue: an answer to something it has received, the request of an `offer` or
      `accept` command, or a ping. */
  ghost predicate Sends(c: Clt, m: Msg) {
    || (exists q: Msg, env: Env :: Receive(c, q, env).1 == Some(m))
    || (exists dest: u64, name: seq<byte>, base: seq<byte>, oid: u64, trf: u64, env: Env ::
          OfferFile(c, dest, name, base, oid, trf, env).1 == Some(m))
    || (exists rid: u64, oid: u64, env: Env :: AcceptOffer(c, rid, oid, env).1 == Some(m))
    || m.mtype == 0x0201
  }

  /** The types that a client sends to others. */
  predicate Travels(t: u16) { t in {0x0111, 0x0112, 0x011a, 0x0121, 0x0122, 0x012a, 0x0201, 0x0202} }

  lemma PingTravels(c: Clt, q: Msg, env: Env)
    ensures var r := OnPing(c, q, env).1; r.Some? ==> r.value.mtype == 0x0202
  {
    hide EncAttr;
  }

  lemma OfferTypes(c: Clt, q: Msg, env: Env)
    requires q.mtype == OFFER_REQ
    ensures var r := OnOffer(c, q, env).1; r.Some? ==> r.value.mtype in {0x0112, 0x011a}
  {
    hide EncAttr, NewDownload;
  }

  lemma GetFileTypes(c: Clt, q: Msg, env: Env)
    requires q.mtype == GETFILE_REQ
    ensures var r := OnGetFile(c, q, env).1; r.Some? ==> r.value.mtype in {0x0122, 0x012a}
  {
    hide Attrs, FindTransfer, OfferRead, FileData, ErrorResponse, U64Of, Msg.Fits;
    forall oid, data
      ensures FileData(q.src, q.trf, env.ts, oid, data).mtype == 0x0122
    {
      DataType(q.src, q.trf, env.ts, oid, data);
    }
    forall ec
      ensures ErrorResponse(q, ec, env.text, env.ts).mtype == 0x012a
    {
      ErrorType(q, ec, env.text, env.ts);
    }
  }

  lemma DataType(dst: u64, trf: u64, ts: u64, oid: u64, data: Content)
    ensures FileData(dst, trf, ts, oid, data).mtype == 0x0122
  {}

  lemma ErrorType(m: Msg, ec: u64, text: seq<byte>, ts: u64)
    requires m.mtype == GETFILE_REQ
    ensures ErrorResponse(m, ec, text, ts).mtype == 0x012a
  {}

  lemma DataTypes(c: Clt, q: Msg, env: Env)
    ensures var r := OnFileData(c, q, env).1; r.Some? ==> r.value.mtype == 0x0121
  {
    hide Attrs, FindTransfer, DownloadWrite, Renamed, EncAttr, U64Of, Chunk, Sub64, Add64;
  }

  lemma LoginTypes(c: Clt, q: Msg, env: Env)
    ensures var r := OnLoginRes(c, q, env).1; r.Some? ==> r.value.dst == 0
  {
    hide Attrs, EncAttr, Msg.Fits;
  }

  lemma HandleTypes(c: Clt, q: Msg, env: Env)
    ensures var r := Handle(c, q, env).1; r.Some? && r.value.dst != 0 ==> Travels(r.value.mtype)
  {
    hide OnPing, OnOffer, OnGetFile, OnFileData, OnOfferRes, OnLoginRes, OnAuthRes, OnLogoutRes, OnAuthErr;
    PingTravels(c, q, env);
    if q.mtype == OFFER_REQ { OfferTypes(c, q, env); }
    if q.mtype == GETFILE_REQ { GetFileTypes(c, q, env); }
    DataTypes(c, q, env);
    LoginTypes(c, q, env);
    Silent(c, q, env);
  }

  lemma Silent(c: Clt, q: Msg, env: Env)
    ensures OnOfferRes(c, q, env).1.None? && OnAuthRes(c, q).1.None?
    ensures OnLogoutRes(c, q).1.None? && OnAuthErr(c).1.None?
  {
    hide Attrs, FindTransfer, U64Of;
  }

  lemma ReceiveTypes(c: Clt, q: Msg, env: Env)
    ensures var r := Receive(c, q, env).1; r.Some? && r.value.dst != 0 ==> Travels(r.value.mtype)
  {
    hide Handle, FindPending, Travels;
    HandleTypes(c, q, env);
    var k := FindPending(c.pending, q);
    if k < |c.pending| { HandleTypes(c.(pending := c.pending[..k] + c.pending[k + 1..]), q, env); }
  }

  lemma CommandTypes(c: Clt)
    ensures forall dest: u64, name: seq<byte>, base: seq<byte>, oid: u64, trf: u64, env: Env ::
              var r := OfferFile(c, dest, name, base, oid, trf, env).1; r.Some? ==> r.value.mtype == 0x0111
    ensures forall rid: u64, oid: u64, env: Env ::
              var r := AcceptOffer(c, rid, oid, env).1; r.Some? ==> r.value.mtype == 0x0121
  {
    hide EncAttr, Msg.Fits, FindTransfer, DownloadResume, DownloadWrite, Chunk, Be;
  }

  lemma SentTravels(c: Clt, m: Msg)
    requires Sends(c, m) && m.dst != 0
    ensures Travels(m.mtype)
  {
    hide Receive, OfferFile, AcceptOffer;
    CommandTypes(c);
    forall q, env
      ensures var r := Receive(c, q, env).1; r.Some? && r.value.dst != 0 ==> Travels(r.value.mtype)
    {
      ReceiveTypes(c, q, env);
    }
  }

  /** Whatever a client sends to the id of another that is logged in reaches that one's queue, stamped with the
      sender's id; nothing else changes, and nobody else gets it. */
  lemma SentIsDelivered(s: S.Srv, i: nat, k: nat, c: Clt, m: Msg, env: S.Env)
    requires UniquePeers(s.c) && i < |s.c| && s.c[i].Peer() && k < |s.c| && s.c[k].Peer() && s.c[k].id == m.dst
    requires m.dst != 0 && m.dst != 0xFFFF_FFFF_FFFF_FFFF && Sends(c, m)
    ensures var s' := S.ProcessMsg(s, i, m, env);
            && |s'.c| == |s.c| && s'.c[k].tx.q == s.c[k].tx.q + [m.(src := s.c[i].id)]
            && s' == s.(c := s.c[k := s.c[k].(tx := s'.c[k].tx)], wfds := s.wfds + {s.c[k].fd})
  {
    hide Sends, S.ProcessMsg, UniquePeers;
    SentTravels(c, m);
    Delivers(s, i, m, env, k);
  }

  // ----- an offer and its answer -----

  /** Two clients that are logged in, each under its id. */
  ghost predicate Linked(s: S.Srv, i: nat, k: nat) {
    && UniquePeers(s.c) && i < |s.c| && k < |s.c| && i != k && s.c[i].Peer() && s.c[k].Peer()
    && 0 < s.c[i].id < 0xFFFF_FFFF_FFFF_FFFF && 0 < s.c[k].id < 0xFFFF_FFFF_FFFF_FFFF
  }

  lemma StaysLinked(s: S.Srv, i: nat, k: nat, x: Msg)
    requires Linked(s, i, k)
    ensures Linked(With(s, k, x), i, k) && Linked(With(s, k, x), k, i)
    ensures var s' := With(s, k, x); s'.c[i] == s.c[i] && s'.c[k].id == s.c[k].id
  {}

  /** What `offer` announces goes through the server to the other client, which has an entry for it then, with the
      ids of both, the file's size and the name of the part file, and answers; the answer goes back through the server
      and renews the offer. */
  lemma OfferTravels(s: S.Srv, i: nat, k: nat, c: Clt, d: Clt, name: seq<byte>, base: seq<byte>, oid: u64, trf: u64,
                     env: Env, env1: Env, env2: Env, senv: S.Env)
    returns (req: Msg, res: Msg)
    requires Linked(s, i, k) && c.st.AuthOk? && d.st.AuthOk? && env.Ok()
    requires name in c.files && 0 < |c.files[name]| < 0x8000_0000_0000_0000
    requires base != [] && 0 !in base && |base| <= 65359
    ensures var (p, q) := (s.c[i].id, s.c[k].id);
            var size: u64 := |c.files[name]|;
            var (c1, out) := OfferFile(c, q, name, base, oid, trf, env);
            var sent := c1.(pending := [req] + c1.pending);
            var s1 := S.ProcessMsg(s, i, req, senv);
            var d1 := ProcessSrvMsg(d, req.(src := p), env1);
            var s2 := S.ProcessMsg(s1, k, res, senv);
            var c2 := ProcessSrvMsg(sent, res.(src := q), env2);
            && out == Some(req) && s1 == With(s, k, req.(src := p))
            && d1 == d.(transfers := [Transfer(Download, p, oid, Some(base), Some(base + SUFFIX), size, 0, None,
                                               env1.now)] + d.transfers,
                        queue := d.queue + [res])
            && s2 == With(s1, i, res.(src := q))
            && c2 == c.(transfers := [Transfer(Offer, q, oid, Some(name), None, size, 0, None, env2.now)] + c.transfers)
  {
    hide S.ProcessMsg, With, OfferFile, ProcessSrvMsg, UniquePeers;
    req := Announces(c, s.c[k].id, name, base, oid, trf, env);
    var p, q := s.c[i].id, s.c[k].id;
    Delivers(s, i, req, senv, k);
    StaysLinked(s, i, k, req.(src := p));
    res := OfferIsAnswered(d, req.(src := p), env1, oid, base, |c.files[name]|);
    Delivers(S.ProcessMsg(s, i, req, senv), k, res, senv, i);
    Renews(OfferFile(c, q, name, base, oid, trf, env).0, req, res.(src := q), oid, env2);
  }

  /** The request of `offer`. */
  lemma Announces(c: Clt, dest: u64, name: seq<byte>, base: seq<byte>, oid: u64, trf: u64, env: Env)
    returns (req: Msg)
    requires c.st.AuthOk? && name in c.files && |c.files[name]| < 0x8000_0000_0000_0000 && |base| <= 65359
    ensures var size: u64 := |c.files[name]|;
            OfferFile(c, dest, name, base, oid, trf, env)
            == (c.(transfers := [Transfer(Offer, dest, oid, Some(name), None, size, 0, None, env.now)] + c.transfers),
                Some(req))
            && req.mtype == 0x0111 && req.dst == dest && req.trf == trf
            && Attrs(req) == [Attr(0x0021, Be(oid, 8)), Attr(0x0022, base + [0]), Attr(0x0023, Be(size, 8))]
  {
    hide Attrs, OfferMsg, Be;
    var size: u64 := |c.files[name]|;
    req := OfferMsg(dest, trf, env.ts, oid, base, size);
    OfferMsgFits(dest, trf, env.ts, oid, base, size);
    OfferFields(dest, trf, env.ts, oid, base, size);
    OfferAttrs(dest, trf, env.ts, oid, base, size);
  }

  lemma OfferIsAnswered(d: Clt, m: Msg, env: Env, oid: u64, base: seq<byte>, size: u64) returns (res: Msg)
    requires d.st.AuthOk? && m.mtype == 0x0111 && base != [] && 0 !in base && size != 0
    requires Attrs(m) == [Attr(0x0021, Be(oid, 8)), Attr(0x0022, base + [0]), Attr(0x0023, Be(size, 8))]
    ensures Answers(res, 0x0112, m) && Attrs(res) == [Attr(0x0021, Be(oid, 8)), Attr(0x0041, [])]
    ensures ProcessSrvMsg(d, m, env)
         == d.(transfers := [Transfer(Download, m.src, oid, Some(base), Some(base + SUFFIX), size, 0, None, env.now)]
                            + d.transfers,
               queue := d.queue + [res])
  {
    hide Last, Attrs, Be, Handle, SUFFIX;
    EachLast(Attrs(m), Be(oid, 8), base + [0], Be(size, 8));
    OfferAnswers(d, m, env, oid, base + [0], base, size);
    res := Handle(d, m, env).1.value;
  }

  lemma EachLast(l: seq<Attr>, a: seq<byte>, b: seq<byte>, c: seq<byte>)
    requires l == [Attr(0x0021, a), Attr(0x0022, b), Attr(0x0023, c)]
    ensures Last(l, 0x0021, a) && Last(l, 0x0022, b) && Last(l, 0x0023, c)
  {
    assert l[0] == Attr(0x0021, a) && l[1] == Attr(0x0022, b) && l[2] == Attr(0x0023, c);
  }

  lemma Renews(c: Clt, req: Msg, m: Msg, oid: u64, env: Env)
    requires c.st.AuthOk? && c.transfers != [] && IsOffer(c.transfers[0], m.src, oid)
    requires req.mtype == 0x0111 && req.dst == m.src && req.trf == m.trf && m.mtype == 0x0112
    requires Attrs(m) != [] && Attrs(m)[0] == Attr(0x0021, Be(oid, 8))
    ensures ProcessSrvMsg(c.(pending := [req] + c.pending), m, env)
         == c.(transfers := c.transfers[0 := c.transfers[0].(tact := env.now)])
  {
    hide Attrs, Be, Handle;
    FirstAnswered(c, req, m, env);
    hide Receive;
    OfferResRenews(c, m, env, oid, 0);
  }

  lemma FirstAnswered(c: Clt, req: Msg, m: Msg, env: Env)
    requires req.mtype % 16 == 1 && m.mtype == req.mtype + 1 && req.dst == m.src && req.trf == m.trf
    ensures Receive(c.(pending := [req] + c.pending), m, env) == Handle(c, m, env)
  {
    hide Handle;
    var l := [req] + c.pending;
    assert FindPending(l, m) == 0 && l[..0] + l[1..] == c.pending;
    assert c.(pending := l).(pending := c.pending) == c;
  }

  // ----- a request for a piece and the piece -----

  /** The largest piece of `n` bytes that one message carries. */
  function Most(n: nat): nat { if n < 65376 then n else 65376 }

  /** The request of the client with the id `q` for the bytes from `offset` on of what `p` offers. */
  predicate Asks(m: Msg, p: u64, oid: u64, offset: u64, size: u64) {
    && m.mtype == 0x0121 && m.dst == p
    && Attrs(m) == [Attr(0x0021, Be(oid, 8)), Attr(0x0025, Be(offset, 8)), Attr(0x0023, Be(size, 8))]
  }

  lemma AsksIs(dst: u64, trf: u64, ts: u64, oid: u64, offset: u64, size: u64)
    ensures Asks(GetFile(dst, trf, ts, oid, offset, size), dst, oid, offset, size)
  {
    GetFileAttrs(dst, trf, ts, oid, offset, size);
    hide Attrs, AddAttr, Be;
    GetFileFields(dst, trf, ts, oid, offset, size);
  }

  lemma PieceFields(dst: u64, trf: u64, ts: u64, oid: u64, data: Content)
    requires |data| <= 65376
    ensures var m := FileData(dst, trf, ts, oid, data);
            && m.mtype == 0x0122 && m.dst == dst && m.trf == trf
            && Attrs(m) == [Attr(0x0021, Be(oid, 8)), Attr(0x0026, data)]
  {
    FileDataAttrs(dst, trf, ts, oid, data);
    hide Attrs, Be, EncAttr;
  }

  /** The offering client's part. */
  lemma PieceServed(c: Clt, m: Msg, env: Env, oid: u64, offset: u64, src: Content) returns (res: Msg, n: nat)
    requires c.st.AuthOk? && env.Ok() && env.HostOk() && Offers(c, m.src, oid, src)
    requires |src| < 0x8000_0000_0000_0000 && offset <= |src|
    requires Asks(m, m.dst, oid, offset, Most(|src| - offset))
    ensures (if offset < |src| then 0 < n <= Most(|src| - offset) else n == 0) && offset + n <= |src|
    ensures Answers(res, 0x0122, m)
    ensures Attrs(res) == [Attr(0x0021, Be(oid, 8)), Attr(0x0026, src[offset..offset + n])]
    ensures var c' := ProcessSrvMsg(c, m, env);
            c' == c.(transfers := c'.transfers, queue := c.queue + [res]) && (n > 0 ==> Offers(c', m.src, oid, src))
  {
    hide Attrs, Be, OnGetFile, FindTransfer, FileData, Piece;
    var size: u64 := Most(|src| - offset);
    if offset < |src| {
      Serve(c, m, env, oid, offset, size, src);
      var data := ServedPiece(c, m, env, oid, offset, size, src);
      PieceLies(src, offset, size, data);
      n := |data|;
      StillOffers(c, OnGetFile(c, m, env).0, m.src, oid, src);
      QueueAside(OnGetFile(c, m, env).0, ProcessSrvMsg(c, m, env), m.src, oid, src);
      hide Offers;
      res := FileData(m.src, m.trf, env.ts, oid, data);
      PieceFields(m.src, m.trf, env.ts, oid, data);
    } else {
      n := 0;
      assert src[offset..offset + n] == [];
      hide Offers;
      OffersFound(c, m.src, oid, src);
      ServeEnd(c, m, env, oid, offset);
      res := FileData(m.src, m.trf, env.ts, oid, []);
      PieceFields(m.src, m.trf, env.ts, oid, []);
    }
  }

  lemma StillOffers(c: Clt, c': Clt, rid: u64, oid: u64, src: Content)
    requires Offers(c, rid, oid, src) && c'.files == c.files && |c'.transfers| == |c.transfers|
    requires var k := FindTransfer(c.transfers, Offer, rid, oid);
             && c'.transfers == c.transfers[k := c'.transfers[k]]
             && Matches(c'.transfers[k], Offer, rid, oid) && c'.transfers[k].name == c.transfers[k].name
    ensures Offers(c', rid, oid, src)
  {
    var k := FindTransfer(c.transfers, Offer, rid, oid);
    FindSame(c.transfers, k, c'.transfers[k], Offer, rid, oid);
    hide FindTransfer;
  }

  /** What waits in queues does not matter to offers and downloads. */
  lemma QueueAside(c: Clt, c': Clt, rid: u64, oid: u64, src: Content)
    requires c'.transfers == c.transfers && c'.files == c.files
    ensures Offers(c', rid, oid, src) <==> Offers(c, rid, oid, src)
    ensures Downloads(c', rid, oid, src) <==> Downloads(c, rid, oid, src)
  {}

  lemma StillDownloads(d: Clt, d': Clt, rid: u64, oid: u64, src: Content, now: int, n: nat)
    requires Downloads(d, rid, oid, src) && now > 0 && |src| <= MAX_OFF && |d'.transfers| == |d.transfers|
    requires var e := Entry(d, rid, oid);
             var k := FindTransfer(d.transfers, Download, rid, oid);
             && e.offset + n <= |src| && d'.files == d.files[e.part.value := src[..e.offset + n]]
             && d'.transfers == d.transfers[k := d'.transfers[k]]
             && d'.transfers[k] == e.(tact := now, offset := e.offset + n, pos := Some(e.offset + n))
    ensures Downloads(d', rid, oid, src) && Entry(d', rid, oid).offset == Entry(d, rid, oid).offset + n
  {
    var k := FindTransfer(d.transfers, Download, rid, oid);
    FindSame(d.transfers, k, d'.transfers[k], Download, rid, oid);
    hide FindTransfer;
  }

  lemma OffersFound(c: Clt, rid: u64, oid: u64, src: Content)
    requires Offers(c, rid, oid, src)
    ensures FindTransfer(c.transfers, Offer, rid, oid) < |c.transfers|
  {}

  lemma PieceLies(src: Content, offset: nat, size: nat, data: Content)
    requires Piece(src, offset, size, data)
    ensures 0 < |data| <= size && offset + |data| <= |src| && data == src[offset..offset + |data|]
  {}

  lemma ServedPiece(c: Clt, m: Msg, env: Env, oid: u64, offset: u64, size: u64, src: Content) returns (data: Content)
    requires c.st.AuthOk? && env.Ok() && Asks(m, m.dst, oid, offset, size)
    requires Offers(c, m.src, oid, src) && |src| <= MAX_OFF && offset < |src| && 0 < size <= env.mem && size <= 65376
    ensures Piece(src, offset, size, data)
    ensures var (c', reply) := OnGetFile(c, m, env);
            reply == Some(FileData(m.src, m.trf, env.ts, oid, data)) && c' == c.(transfers := c'.transfers)
  {
    hide Attrs, Be, OnGetFile, FindTransfer, FileData, Offers;
    Serve(c, m, env, oid, offset, size, src);
    data :| Piece(src, offset, size, data)
            && (if |data| <= MAX_DATA_SIZE
                then OnGetFile(c, m, env).1 == Some(FileData(m.src, m.trf, env.ts, oid, data))
                     && OnGetFile(c, m, env).0.dead == c.dead
                else OnGetFile(c, m, env).1 == None && OnGetFile(c, m, env).0.dead);
  }

  /** One round of a download through the server: the request reaches the offering client and no other, its piece
      comes back, and the part file has grown by it; the next request asks for what lacks then.  If nothing lacked, the
      file is there under its name. */
  lemma PieceTravels(s: S.Srv, i: nat, k: nat, d: Clt, c: Clt, req: Msg, oid: u64, src: Content, env1: Env, env2: Env,
                     senv: S.Env)
    returns (res: Msg, n: nat)
    requires Linked(s, i, k) && d.st.AuthOk? && c.st.AuthOk? && |src| < 0x8000_0000_0000_0000
    requires env1.Ok() && env1.HostOk() && env2.Ok() && env2.HostOk()
    requires Offers(c, s.c[i].id, oid, src) && Downloads(d, s.c[k].id, oid, src)
    requires var e := Entry(d, s.c[k].id, oid); Asks(req, s.c[k].id, oid, e.offset, Most(|src| - e.offset))
    ensures var (q, p) := (s.c[i].id, s.c[k].id);
            var e := Entry(d, p, oid);
            var s1 := S.ProcessMsg(s, i, req, senv);
            var c1 := ProcessSrvMsg(c, req.(src := q), env1);
            var s2 := S.ProcessMsg(s1, k, res, senv);
            var d1 := ProcessSrvMsg(d.(pending := [req] + d.pending), res.(src := p), env2);
            && s1 == With(s, k, req.(src := q)) && s2 == With(s1, i, res.(src := p))
            && c1 == c.(transfers := c1.transfers, queue := c.queue + [res])
            && d1 == d.(transfers := d1.transfers, files := d1.files, queue := d1.queue)
            && if e.offset < |src| then
                 && 0 < n && e.offset + n <= |src| && d1.files == d.files[e.part.value := src[..e.offset + n]]
                 && Offers(c1, q, oid, src) && Downloads(d1, p, oid, src)
                 && |d1.queue| == |d.queue| + 1 && d1.queue[..|d.queue|] == d.queue
                 && Asks(d1.queue[|d.queue|], p, oid, e.offset + n, Most(|src| - e.offset - n))
               else
                 d1.queue == d.queue && e.name.value in d1.files && d1.files[e.name.value] == src
  {
    hide S.ProcessMsg, With, ProcessSrvMsg, UniquePeers, Offers, Downloads, FindTransfer;
    var q, p := s.c[i].id, s.c[k].id;
    assert FindTransfer(d.transfers, Download, p, oid) < |d.transfers| && Entry(d, p, oid).offset <= |src| by {
      DownloadFits(d, p, oid, src);
    }
    var e := Entry(d, p, oid);
    Delivers(s, i, req, senv, k);
    StaysLinked(s, i, k, req.(src := q));
    res, n := PieceServed(c, req.(src := q), env1, oid, e.offset, src);
    Delivers(S.ProcessMsg(s, i, req, senv), k, res, senv, i);
    PieceTaken(d, req, res.(src := p), env2, oid, src, n);
  }

  lemma DownloadFits(d: Clt, p: u64, oid: u64, src: Content)
    requires Downloads(d, p, oid, src)
    ensures FindTransfer(d.transfers, Download, p, oid) < |d.transfers|
    ensures Entry(d, p, oid).offset <= |src| && Entry(d, p, oid).part.Some? && Entry(d, p, oid).name.Some?
    ensures Entry(d, p, oid).size == |src|
  {}

  /** The downloading client's part. */
  lemma PieceTaken(d: Clt, req: Msg, m: Msg, env: Env, oid: u64, src: Content, n: nat)
    requires d.st.AuthOk? && env.Ok() && env.HostOk() && |src| < 0x8000_0000_0000_0000
    requires Downloads(d, m.src, oid, src)
    requires req.mtype == 0x0121 && m.mtype == 0x0122 && req.dst == m.src && req.trf == m.trf
    requires var e := Entry(d, m.src, oid);
             && (if e.offset < |src| then 0 < n <= 65376 else n == 0) && e.offset + n <= |src|
             && Attrs(m) == [Attr(0x0021, Be(oid, 8)), Attr(0x0026, src[e.offset..e.offset + n])]
    ensures var e := Entry(d, m.src, oid);
            var d1 := ProcessSrvMsg(d.(pending := [req] + d.pending), m, env);
            && d1 == d.(transfers := d1.transfers, files := d1.files, queue := d1.queue)
            && if e.offset < |src| then
                 && d1.files == d.files[e.part.value := src[..e.offset + n]]
                 && Downloads(d1, m.src, oid, src) && Entry(d1, m.src, oid).offset == e.offset + n
                 && |d1.queue| == |d.queue| + 1 && d1.queue[..|d.queue|] == d.queue
                 && Asks(d1.queue[|d.queue|], m.src, oid, e.offset + n, Most(|src| - e.offset - n))
               else
                 d1.queue == d.queue && e.name.value in d1.files && d1.files[e.name.value] == src
  {
    hide Attrs, Be, OnFileData, FindTransfer, GetFile, Downloads, Asks;
    DownloadFits(d, m.src, oid, src);
    FirstAnswered(d, req, m, env);
    hide Receive;
    var e := Entry(d, m.src, oid);
    if e.offset < |src| {
      var data := src[e.offset..e.offset + n];
      TakePiece(d, m, env, oid, src, data);
      StillDownloads(d, OnFileData(d, m, env).0, m.src, oid, src, env.now, n);
      QueueAside(OnFileData(d, m, env).0, ProcessSrvMsg(d.(pending := [req] + d.pending), m, env), m.src, oid, src);
      AsksIs(m.src, env.rnd, env.ts, oid, e.offset + n, Chunk(|src| - e.offset - n));
    } else {
      assert src[e.offset..e.offset + n] == [];
      TakeEnd(d, m, env, oid, src);
    }
  }
}
