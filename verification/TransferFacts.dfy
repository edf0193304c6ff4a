/** One exchange of a file transfer: what an honest peer answers to GETFILE, and what the downloader does
    with the answer (cltmain.c, transfer.c). */
module TransferFacts {
  import opened Bytes
  import opened Message
  import opened ClientSpec

  type Content = seq<byte>

  // ----- what the messages carry -----

  lemma GetFileAttrs(dst: u64, trf: u64, ts: u64, oid: u64, offset: u64, size: u64)
    ensures Attrs(GetFile(dst, trf, ts, oid, offset, size))
         == [Attr(OFFERID, Be(oid, 8)), Attr(OFFSET, Be(offset, 8)), Attr(SIZE, Be(size, 8))]
    ensures |GetFile(dst, trf, ts, oid, offset, size).pay| == 48
  {
    hide Tlv, EncAttr, Be;
    var a, b, c := Attr(OFFERID, Be(oid, 8)), Attr(OFFSET, Be(offset, 8)), Attr(SIZE, Be(size, 8));
    var m := GetFile(dst, trf, ts, oid, offset, size);
    assert m.pay == EncAttr(a) + (EncAttr(b) + (EncAttr(c) + []));
    TlvOfEncAttr(a, EncAttr(b) + (EncAttr(c) + []));
    TlvOfEncAttr(b, EncAttr(c) + []);
    TlvOfEncAttr(c, []);
    TlvEmpty();
  }

  lemma FileDataAttrs(dst: u64, trf: u64, ts: u64, oid: u64, data: Content)
    requires |data| < 0x1_0000
    ensures Attrs(FileData(dst, trf, ts, oid, data)) == [Attr(OFFERID, Be(oid, 8)), Attr(DATA, data)]
    ensures |FileData(dst, trf, ts, oid, data).pay| == 24 + Roundup8(|data|)
  {
    hide Tlv, EncAttr, Be;
    var a, b := Attr(OFFERID, Be(oid, 8)), Attr(DATA, data);
    assert FileData(dst, trf, ts, oid, data).pay == EncAttr(a) + (EncAttr(b) + []);
    TlvOfEncAttr(a, EncAttr(b) + []);
    TlvOfEncAttr(b, []);
    TlvEmpty();
  }

  /** No piece makes a message too large; a full piece makes one of exactly the largest size. */
  lemma PieceFits(dst: u64, trf: u64, ts: u64, oid: u64, data: Content)
    requires |data| <= MAX_DATA_SIZE
    ensures FileData(dst, trf, ts, oid, data).Fits()
    ensures |data| == MAX_DATA_SIZE ==> |FileData(dst, trf, ts, oid, data).pay| == 65400
  {
    FileDataAttrs(dst, trf, ts, oid, data);
  }

  lemma PieceFitsExactly(dst: u64, trf: u64, ts: u64, oid: u64, data: Content)
    ensures FileData(dst, trf, ts, oid, data).Fits() <==> |data| <= MAX_DATA_SIZE
  {
    hide Be;
    assert |FileData(dst, trf, ts, oid, data).pay| == 24 + Roundup8(|data|);
  }

  // ----- lists of transfers -----

  /** Only the entry at `k` changes, and for other keys nothing is found elsewhere than before. */
  lemma {:induction false} FindOther(l: seq<Transfer>, k: nat, t: Transfer, kind: Kind, rid: u64, oid: u64)
    requires k < |l| && !Matches(l[k], kind, rid, oid) && !Matches(t, kind, rid, oid)
    ensures FindTransfer(l[k := t], kind, rid, oid) == FindTransfer(l, kind, rid, oid)
  {
    if k == 0 {
      assert l[0 := t][1..] == l[1..];
    } else {
      assert l[k := t][1..] == l[1..][k - 1 := t] && l[k := t][0] == l[0];
      FindOther(l[1..], k - 1, t, kind, rid, oid);
    }
  }

  lemma {:induction false} FindSame(l: seq<Transfer>, k: nat, t: Transfer, kind: Kind, rid: u64, oid: u64)
    requires k == FindTransfer(l, kind, rid, oid) < |l| && Matches(t, kind, rid, oid)
    ensures FindTransfer(l[k := t], kind, rid, oid) == k
  {
    if k > 0 {
      assert l[k := t][1..] == l[1..][k - 1 := t] && l[k := t][0] == l[0];
      FindSame(l[1..], k - 1, t, kind, rid, oid);
    }
  }

  // ----- the offering side -----

  /** An entry that still offers `src` under its key. */
  ghost predicate Offers(c: Clt, rid: u64, oid: u64, src: Content) {
    var k := FindTransfer(c.transfers, Offer, rid, oid);
    && k < |c.transfers| && c.transfers[k].name.Some?
    && c.transfers[k].name.value in c.files && c.files[c.transfers[k].name.value] == src
  }

  /** Every file offered under a key. */
  function OfferedNames(c: Clt, rid: u64, oid: u64): set<seq<byte>> {
    set t | t in c.transfers && Matches(t, Offer, rid, oid) && t.name.Some? :: t.name.value
  }

  function DownloadNames(c: Clt, rid: u64, oid: u64): set<seq<byte>> {
    var k := FindTransfer(c.transfers, Download, rid, oid);
    if k == |c.transfers| then {}
    else
      var d := c.transfers[k];
      (if d.name.Some? then {d.name.value} else {}) + if d.part.Some? then {d.part.value} else {}
  }

  /** Bytes a read of at most `size` from `offset` may return. */
  ghost predicate Piece(src: Content, offset: nat, size: nat, data: Content) {
    && 0 < |data| <= size && offset + |data| <= |src| && data == src[offset..offset + |data|]
  }

  lemma ReadPiece(o: Transfer, files: Files, off: u64, size: u64, readLen: nat, mem: nat)
    requires o.name.Some? && o.name.value in files && |files[o.name.value]| <= MAX_OFF
    requires 0 < size <= mem && off < |files[o.name.value]|
    ensures var (o', data, died) := OfferRead(o, files, off, size, readLen, mem);
            && o' == o.(pos := Some(0)) && data.Some? && !died
            && Piece(files[o.name.value], off, size, data.value)
  {}

  /** A request within the file, for no more than can be allocated, is answered with a piece at the requested
      offset, or ends the client if the piece exceeds what one message can carry. */
  lemma Serve(c: Clt, m: Msg, env: Env, oid: u64, offset: u64, size: u64, src: Content)
    requires c.st.AuthOk? && env.Ok() && m.mtype == GETFILE_REQ
    requires Attrs(m) == [Attr(OFFERID, Be(oid, 8)), Attr(OFFSET, Be(offset, 8)), Attr(SIZE, Be(size, 8))]
    requires Offers(c, m.src, oid, src) && |src| <= MAX_OFF && offset < |src| && 0 < size <= env.mem
    ensures var (c', reply) := OnGetFile(c, m, env);
            var k := FindTransfer(c.transfers, Offer, m.src, oid);
            && (exists data :: Piece(src, offset, size, data)
                  && (if |data| <= MAX_DATA_SIZE
                      then reply == Some(FileData(m.src, m.trf, env.ts, oid, data)) && c'.dead == c.dead
                      else reply == None && c'.dead))
            && c' == c.(transfers := c'.transfers, dead := c'.dead) && |c'.transfers| == |c.transfers|
            && c'.transfers == c.transfers[k := c'.transfers[k]]
            && Matches(c'.transfers[k], Offer, m.src, oid) && c'.transfers[k].name == c.transfers[k].name
  {
    hide FindTransfer, OfferRead, FileData;
    U64OfBe(oid); U64OfBe(offset); U64OfBe(size);
    hide U64Of, Be;
    var k := FindTransfer(c.transfers, Offer, m.src, oid);
    var o := c.transfers[k].(tact := env.now);
    ReadPiece(o, c.files, offset, size, env.readLen, env.mem);
    PieceFitsExactly(m.src, m.trf, env.ts, oid, OfferRead(o, c.files, offset, size, env.readLen, env.mem).1.value);
  }

  /** A request for nothing ends the offer and is answered with nothing. */
  lemma ServeEnd(c: Clt, m: Msg, env: Env, oid: u64, offset: u64)
    requires c.st.AuthOk? && m.mtype == GETFILE_REQ
    requires Attrs(m) == [Attr(OFFERID, Be(oid, 8)), Attr(OFFSET, Be(offset, 8)), Attr(SIZE, Be(0, 8))]
    requires FindTransfer(c.transfers, Offer, m.src, oid) < |c.transfers|
    ensures var (c', reply) := OnGetFile(c, m, env);
            var k := FindTransfer(c.transfers, Offer, m.src, oid);
            && reply == Some(FileData(m.src, m.trf, env.ts, oid, [])) && |c'.transfers| == |c.transfers|
            && c' == c.(transfers := c.transfers[k := c'.transfers[k]]) && c'.transfers[k].tact == 0
  {
    hide FindTransfer, OfferRead, FileData;
    U64OfBe(oid); U64OfBe(offset); U64OfBe(0);
    hide U64Of, Be;
  }

  /** What becomes of a request for a piece of an offered file, whatever it asks for.  One at an offset that no
      file can have is refused; any other that asks for more than can be allocated ends the process, even
      behind the end of the file; of the rest, those at or beyond the end of the file are refused, and no
      others are. */
  lemma ServeRange(c: Clt, m: Msg, env: Env, oid: u64, offset: u64, size: u64, src: Content)
    requires c.st.AuthOk? && m.mtype == GETFILE_REQ
    requires Attrs(m) == [Attr(OFFERID, Be(oid, 8)), Attr(OFFSET, Be(offset, 8)), Attr(SIZE, Be(size, 8))]
    requires Offers(c, m.src, oid, src) && |src| <= MAX_OFF && 0 < size
    ensures var (c', reply) := OnGetFile(c, m, env);
            if offset <= MAX_OFF && size > env.mem then c'.dead && reply.None?
            else if offset >= |src| then reply.Some? && reply.value.mtype == GETFILE_ERR && c'.dead == c.dead
            else if reply.Some? then reply.value.mtype == GETFILE_RES && c'.dead == c.dead
            else c'.dead && size > MAX_DATA_SIZE
  {
    hide FindTransfer, EncAttr;
    U64OfBe(oid); U64OfBe(offset); U64OfBe(size);
    hide U64Of, Be;
    assert ToErr(GETFILE_REQ) == GETFILE_ERR;
    if offset < |src| && size <= env.mem {
      var k := FindTransfer(c.transfers, Offer, m.src, oid);
      var o := c.transfers[k].(tact := env.now);
      ReadPiece(o, c.files, offset, size, env.readLen, env.mem);
      PieceFitsExactly(m.src, m.trf, env.ts, oid, OfferRead(o, c.files, offset, size, env.readLen, env.mem).1.value);
    }
  }

  // ----- the downloading side -----

  /** A download of `src` whose part file holds exactly the first `offset` bytes. */
  ghost predicate Downloads(c: Clt, rid: u64, oid: u64, src: Content) {
    var k := FindTransfer(c.transfers, Download, rid, oid);
    && k < |c.transfers|
    && var d := c.transfers[k];
       && d.size == |src| && d.offset <= d.size && d.pos == Some(d.offset as nat)
       && d.name.Some? && d.part == Some(d.name.value + PART)
       && d.part.value in c.files && c.files[d.part.value] == src[..d.offset]
  }

  function Entry(c: Clt, rid: u64, oid: u64): Transfer
    requires FindTransfer(c.transfers, Download, rid, oid) < |c.transfers|
  {
    c.transfers[FindTransfer(c.transfers, Download, rid, oid)]
  }

  lemma WritePiece(d: Transfer, files: Files, src: Content, data: Content, disk: int)
    requires d.pos == Some(d.offset as nat) && d.part.Some? && d.part.value in files
    requires d.offset <= |src| <= MAX_OFF && files[d.part.value] == src[..d.offset]
    requires Piece(src, d.offset, |data|, data) && |data| <= disk
    ensures DownloadWrite(d, files, data, disk)
         == (d.(pos := Some(d.offset + |data|)), files[d.part.value := src[..d.offset + |data|]], true)
  {
    var was := files[d.part.value];
    assert was[..d.offset] == was;
    assert src[..d.offset] + data == src[..d.offset + |data|];
    assert was[..d.offset] + data + [] == src[..d.offset + |data|];
  }

  /** A piece extends the part file and asks for the rest; the remaining size never underflows, and the
      request is for nothing exactly when the file is complete. */
  lemma TakePiece(c: Clt, m: Msg, env: Env, oid: u64, src: Content, data: Content)
    requires c.st.AuthOk? && env.Ok() && |data| <= env.disk && m.mtype == GETFILE_RES
    requires Attrs(m) == [Attr(OFFERID, Be(oid, 8)), Attr(DATA, data)]
    requires Downloads(c, m.src, oid, src) && |src| <= MAX_OFF
    requires Piece(src, Entry(c, m.src, oid).offset, |data|, data)
    ensures var (c', reply) := OnFileData(c, m, env);
            var d := Entry(c, m.src, oid);
            var k := FindTransfer(c.transfers, Download, m.src, oid);
            && c' == c.(transfers := c'.transfers, files := c.files[d.part.value := src[..d.offset + |data|]])
            && |c'.transfers| == |c.transfers| && c'.transfers == c.transfers[k := c'.transfers[k]]
            && c'.transfers[k] == d.(tact := env.now, offset := d.offset + |data|, pos := Some(d.offset + |data|))
            && reply == Some(GetFile(m.src, env.rnd, env.ts, oid, d.offset + |data|, Chunk(d.size - d.offset - |data|)))
  {
    hide FindTransfer, DownloadWrite, GetFile, Chunk;
    U64OfBe(oid);
    hide U64Of, Be;
    var k := FindTransfer(c.transfers, Download, m.src, oid);
    var d := c.transfers[k].(tact := env.now);
    WritePiece(d, c.files, src, data, env.disk);
    assert Add64(d.offset, |data| % 0x1_0000_0000_0000_0000) == d.offset + |data|;
    assert Sub64(d.size, d.offset + |data|) == d.size - d.offset - |data|;
  }

  /** What a disk has kept of a piece, which may be none. */
  function StoppedAt(offset: nat, disk: int): nat { if disk > 0 then offset + disk else offset }

  lemma WriteShort(d: Transfer, files: Files, src: Content, data: Content, disk: int)
    requires d.pos == Some(d.offset as nat) && d.part.Some? && d.part.value in files
    requires d.offset <= |src| <= MAX_OFF && files[d.part.value] == src[..d.offset]
    requires Piece(src, d.offset, |data|, data) && disk < |data|
    ensures DownloadWrite(d, files, data, disk)
         == (d.(pos := None), files[d.part.value := src[..StoppedAt(d.offset, disk)]], false)
  {
    var was := files[d.part.value];
    assert was[..d.offset] == was;
    if disk > 0 {
      assert data[..disk] == src[d.offset..d.offset + disk];
      assert src[..d.offset] + data[..disk] == src[..d.offset + disk];
      assert was[..d.offset] + data[..disk] + [] == src[..d.offset + disk];
    }
  }

  /** A disk that does not take a whole piece ends the download, but the part file stays a beginning of the
      source: it can be resumed where the disk stopped. */
  lemma TakeShort(c: Clt, m: Msg, env: Env, oid: u64, src: Content, data: Content)
    requires c.st.AuthOk? && env.disk < |data| && m.mtype == GETFILE_RES
    requires Attrs(m) == [Attr(OFFERID, Be(oid, 8)), Attr(DATA, data)]
    requires Downloads(c, m.src, oid, src) && |src| <= MAX_OFF
    requires Piece(src, Entry(c, m.src, oid).offset, |data|, data)
    ensures var (c', reply) := OnFileData(c, m, env);
            var d := Entry(c, m.src, oid);
            var k := FindTransfer(c.transfers, Download, m.src, oid);
            && reply == None
            && c' == c.(transfers := c.transfers[k := c'.transfers[k]],
                        files := c.files[d.part.value := src[..StoppedAt(d.offset, env.disk)]])
            && c'.transfers[k].tact == 0 && c'.files[d.part.value] < src
  {
    hide FindTransfer, DownloadWrite, GetFile, Chunk;
    U64OfBe(oid);
    hide U64Of, Be;
    var d := Entry(c, m.src, oid);
    WriteShort(d.(tact := env.now), c.files, src, data, env.disk);
    assert StoppedAt(d.offset, env.disk) < |src|;
  }

  /** An empty piece ends the download: the entry is retired and the part file takes its final name. */
  lemma TakeEnd(c: Clt, m: Msg, env: Env, oid: u64, src: Content)
    requires c.st.AuthOk? && m.mtype == GETFILE_RES
    requires Attrs(m) == [Attr(OFFERID, Be(oid, 8)), Attr(DATA, [])]
    requires Downloads(c, m.src, oid, src)
    ensures var (c', reply) := OnFileData(c, m, env);
            var d := Entry(c, m.src, oid);
            var k := FindTransfer(c.transfers, Download, m.src, oid);
            && reply == None
            && c' == c.(transfers := c.transfers[k := c'.transfers[k]],
                        files := Renamed(c.files, d.part.value, d.name.value))
            && c'.transfers[k].tact == 0
            && (d.offset == d.size ==> d.name.value in c'.files && c'.files[d.name.value] == src)
  {
    hide FindTransfer, DownloadWrite, GetFile;
    U64OfBe(oid);
    hide U64Of, Be;
    var d := Entry(c, m.src, oid);
    assert d.part.value != d.name.value by { assert |d.part.value| == |d.name.value| + |PART|; }
    if d.offset == d.size { assert src[..d.offset] == src; }
  }

  /** Accepting an offer, fresh or resumed, establishes the download and asks for its first piece. */
  lemma Start(c: Clt, rid: u64, oid: u64, env: Env, src: Content)
    requires env.Ok() && env.disk >= 0 && |src| <= MAX_OFF
    requires var k := FindTransfer(c.transfers, Download, rid, oid);
             && k < |c.transfers|
             && var d := c.transfers[k];
                && d.size == |src| && d.offset == 0 && d.pos == None && d.name.Some?
                && d.part == Some(d.name.value + PART)
                && (d.part.value in c.files ==> c.files[d.part.value] < src)
                && (d.part.value !in c.files ==> src != [])
    ensures var (c', reply) := AcceptOffer(c, rid, oid, env);
            var k := FindTransfer(c.transfers, Download, rid, oid);
            var d := c.transfers[k];
            && Downloads(c', rid, oid, src) && Entry(c', rid, oid).offset < d.size
            && c' == c.(transfers := c.transfers[k := c'.transfers[k]],
                        files := c.files[d.part.value := src[..Entry(c', rid, oid).offset]])
            && c'.transfers[k].name == d.name && Matches(c'.transfers[k], Download, rid, oid)
            && reply == Some(GetFile(rid, env.rnd, env.ts, oid, Entry(c', rid, oid).offset, Chunk(d.size)))
  {
    hide GetFile, Chunk;
    var k := FindTransfer(c.transfers, Download, rid, oid);
    var d := c.transfers[k];
    var (c', reply) := AcceptOffer(c, rid, oid, env);
    FindSame(c.transfers, k, c'.transfers[k], Download, rid, oid);
    if d.part.value in c.files {
      var was := c.files[d.part.value];
      assert src[..|was|] == was;
      assert c.files[d.part.value := was] == c.files;
    } else {
      assert src[..0] == [];
    }
  }

  // ----- accepting onto an existing part file -----

  /** Accepting an entry that is not started takes an existing part file for the beginning of the file,
      whatever it holds: it asks for what comes behind it and leaves every file alone. */
  lemma AcceptExisting(c: Clt, rid: u64, oid: u64, env: Env)
    requires FindTransfer(c.transfers, Download, rid, oid) < |c.transfers|
    requires var d := Entry(c, rid, oid);
             d.pos == None && d.part.Some? && d.part.value in c.files && |c.files[d.part.value]| <= MAX_OFF
    ensures var (c', reply) := AcceptOffer(c, rid, oid, env);
            var d := Entry(c, rid, oid);
            var k := FindTransfer(c.transfers, Download, rid, oid);
            var n: u64 := |c.files[d.part.value]|;
            && c' == c.(transfers := c.transfers[k := d.(tact := env.now, pos := Some(n as nat), offset := n)])
            && reply == Some(GetFile(rid, env.rnd, env.ts, oid, n, Chunk(d.size)))
  {
    hide FindTransfer, GetFile, Chunk;
  }

  /** So the offering peer answers with data if and only if the part file is shorter than the source, and
      refuses otherwise; of a refusal the client takes no notice, so that a complete part file never gets
      its final name. */
  lemma ResumeAnswered(c: Clt, rid: u64, oid: u64, env: Env, p: Clt, q: u64, penv: Env, src: Content)
    requires FindTransfer(c.transfers, Download, rid, oid) < |c.transfers|
    requires var d := Entry(c, rid, oid);
             && d.pos == None && d.part.Some? && d.part.value in c.files && |c.files[d.part.value]| <= MAX_OFF
             && d.size > 0
    requires p.st.AuthOk? && Offers(p, q, oid, src) && |src| <= MAX_OFF && penv.mem >= MAX_DATA_SIZE
    ensures var (c', req) := AcceptOffer(c, rid, oid, env);
            req.Some?
            && var (p', reply) := OnGetFile(p, req.value.(src := q), penv);
               && reply.Some? && p'.dead == p.dead
               && (reply.value.mtype == GETFILE_RES <==> |c.files[Entry(c, rid, oid).part.value]| < |src|)
               && (reply.value.mtype == GETFILE_ERR <==> |c.files[Entry(c, rid, oid).part.value]| >= |src|)
  {
    AcceptExisting(c, rid, oid, env);
    var d := Entry(c, rid, oid);
    var n: u64 := |c.files[d.part.value]|;
    var m := GetFile(rid, env.rnd, env.ts, oid, n, Chunk(d.size)).(src := q);
    GetFileAttrs(rid, env.rnd, env.ts, oid, n, Chunk(d.size));
    assert Attrs(m) == Attrs(GetFile(rid, env.rnd, env.ts, oid, n, Chunk(d.size)));
    hide FindTransfer, OnGetFile, Attrs, Be, AcceptOffer, Offers;
    ServeRange(p, m, penv, oid, n, Chunk(d.size), src);
  }

  lemma RefusalIgnored(c: Clt, m: Msg, env: Env)
    requires m.mtype == GETFILE_ERR
    ensures ProcessSrvMsg(c, m, env) == c
  {
    assert !IsRes(GETFILE_ERR);
    hide OnOffer, OnGetFile, OnOfferRes, OnFileData, OnLoginRes;
  }
}
