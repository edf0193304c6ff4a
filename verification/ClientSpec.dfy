/** The client's protocol engine and its transfers as functions (cltmain.c, transfer.c). */
module ClientSpec {
  import opened Bytes
  import opened Message
  import opened Buffer
  import opened ServerSpec

  // ----- transfers -----

  datatype Kind = Offer | Download

  /** `pos` is the position of the open file, `None` when no file is open. */
  datatype Transfer = Transfer(kind: Kind, rid: u64, oid: u64, name: Option<seq<byte>>, part: Option<seq<byte>>,
                               size: u64, offset: u64, pos: Option<nat>, tact: int)

  type Files = map<seq<byte>, seq<byte>>

  /** Client state: login state, list of transfers (head first), requests pending a response (head
      first), send queue, the files it sees, the password it logs in with, and whether the process has
      ended, in `die_if`. */
  datatype Clt = Clt(st: St, transfers: seq<Transfer>, pending: seq<Msg>, queue: seq<Msg>, files: Files,
                     pubkey: seq<byte>, dead: bool)

  /** Outside input of one step: the time, a timestamp, a random number, the text of an error notice, how
      many bytes a read returns, how many bytes the disk takes, which is negative for an error, and how large
      a block can be allocated. */
  datatype Env = Env(now: int, ts: u64, rnd: u64, text: seq<byte>, readLen: nat, disk: int, mem: nat)
  {
    predicate Ok() { now > 0 && 0 !in text && |text| < 4000 }

    /** The disk takes a whole piece, and there is memory for one. */
    predicate HostOk() { disk >= MAX_DATA_SIZE && mem >= MAX_DATA_SIZE }
  }

  const MAX_DATA_SIZE: u64 := MSG_MAX_PAY_SIZE - 24
  const PART: seq<byte> := Ascii(".part")

  function Add64(a: u64, b: u64): u64 { (a + b) % 0x1_0000_0000_0000_0000 }
  function Sub64(a: u64, b: u64): u64 { (a - b) % 0x1_0000_0000_0000_0000 }
  function Chunk(n: u64): u64 { if n < MAX_DATA_SIZE then n else MAX_DATA_SIZE }

  predicate Matches(t: Transfer, kind: Kind, rid: u64, oid: u64) {
    kind == t.kind && oid == t.oid && rid == t.rid && 0 < t.tact
  }

  /** `transfer_match`: index of the first live transfer, or the length of the list. */
  function FindTransfer(l: seq<Transfer>, kind: Kind, rid: u64, oid: u64): (k: nat)
    ensures k <= |l| && forall j | 0 <= j < k :: !Matches(l[j], kind, rid, oid)
    ensures k < |l| ==> Matches(l[k], kind, rid, oid)
  {
    if l == [] || Matches(l[0], kind, rid, oid) then 0 else 1 + FindTransfer(l[1..], kind, rid, oid)
  }

  /** `transfer_invalidate`: the entry stays until upkeep, but matches nothing any more. */
  function Invalidated(t: Transfer): Transfer { t.(rid := 0, oid := 0, tact := 0, pos := None) }

  /** `offer_read`: the entry afterwards and the bytes, `None` for an error or the end of the file, and whether
      the process has ended for want of memory: it takes a block of the size asked for before it reads. */
  function OfferRead(o: Transfer, files: Files, off: u64, size: u64, readLen: nat, mem: nat)
    : (r: (Transfer, Option<seq<byte>>, bool))
    ensures r.1.Some? ==> 0 < |r.1.value| <= size && size <= mem
    ensures r.2 <==> o.name.Some? && o.name.value in files && off <= MAX_OFF && size > mem
    ensures !r.2 && size > 0
            ==> (r.1.Some? <==> o.name.Some? && o.name.value in files && off <= MAX_OFF && off < |files[o.name.value]|)
  {
    if o.name.None? || o.name.value !in files then (o, None, false)
    else
      var content := files[o.name.value];
      var open := o.(pos := Some(0));
      if off >= 0x8000_0000_0000_0000 then (open, None, false)
      else if size > mem then (open, None, true)
      else if off >= |content| || size == 0 then (o.(pos := None), None, false)
      else
        var most := if size < |content| - off then size else |content| - off;
        var n := if readLen == 0 then 1 else if readLen < most then readLen else most;
        (open, Some(content[off..off + n]), false)
  }

  /** `download_write`: fails if the part file cannot be created or the disk does not take it all, of which it
      may keep a part. */
  function DownloadWrite(d: Transfer, files: Files, data: seq<byte>, disk: int): (Transfer, Files, bool) {
    if d.part.None? then (d, files, false)
    else
      var part := d.part.value;
      if d.pos.None? && part in files then (d, files, false)
      else
        var pos := if d.pos.Some? then d.pos.value else 0;
        var was := if part in files then files[part] else [];
        if disk < |data| then
          (d.(pos := None), files[part := Overwritten(was, pos, if disk > 0 then data[..disk] else [])], false)
        else (d.(pos := Some(pos + |data|)), files[part := Overwritten(was, pos, data)], true)
  }

  /** A write at `pos`; a gap before it reads as zeros. */
  function Overwritten(was: seq<byte>, pos: nat, data: seq<byte>): seq<byte> {
    var front := if pos <= |was| then was[..pos] else was + Zeros(pos - |was|);
    var rest := if pos + |data| <= |was| then was[pos + |data|..] else [];
    if data == [] then was else front + data + rest
  }

  /** `download_resume`: opens an existing part file at its end. */
  function DownloadResume(d: Transfer, files: Files): (Transfer, bool) {
    if d.pos.Some? || d.part.None? || d.part.value !in files || |files[d.part.value]| > MAX_OFF then (d, false)
    else (d.(pos := Some(|files[d.part.value]|), offset := |files[d.part.value]|), true)
  }

  /** The largest file offset. */
  const MAX_OFF: u64 := 0x7FFF_FFFF_FFFF_FFFF

  function Renamed(files: Files, from: seq<byte>, to: seq<byte>): Files {
    if from in files && from != to then (files - {from})[to := files[from]] else files
  }

  // ----- messages -----

  function Compose(mtype: u16, dst: u64, trf: u64, ts: u64): Msg { Msg(mtype, 0, ts, 0, dst, trf, []) }

  function GetFile(dst: u64, trf: u64, ts: u64, oid: u64, offset: u64, size: u64): Msg {
    AddAttr(AddAttr(AddAttr(Compose(GETFILE_REQ, dst, trf, ts), OFFERID, Be(oid, 8)), OFFSET, Be(offset, 8)),
            SIZE, Be(size, 8))
  }

  function FileData(dst: u64, trf: u64, ts: u64, oid: u64, data: seq<byte>): Msg {
    AddAttr(AddAttr(Compose(GETFILE_RES, dst, trf, ts), OFFERID, Be(oid, 8)), DATA, data)
  }

  function AuthRequest(trf: u64, ts: u64, pubkey: seq<byte>): Msg {
    AddAttr(Compose(AUTH_REQ, 0, trf, ts), DIGEST, PLAINTEXT + pubkey + [0])
  }

  /** `m` goes out, unless adding its last attribute has ended the process. */
  function Sending(c: Clt, m: Msg): Result {
    if m.Fits() then (c, Some(m)) else (c.(dead := true), None)
  }

  predicate Answered(q: Msg, m: Msg) { q.dst == m.src && q.trf == m.trf && ToRes(q.mtype) == m.mtype }

  /** `match_pending_req`: index of the first request that the response answers. */
  function FindPending(l: seq<Msg>, m: Msg): (k: nat)
    ensures k <= |l| && forall j | 0 <= j < k :: !Answered(l[j], m)
    ensures k < |l| ==> Answered(l[k], m)
  {
    if l == [] || Answered(l[0], m) then 0 else 1 + FindPending(l[1..], m)
  }

  type Result = (Clt, Option<Msg>)

  function AttrAt(l: seq<Attr>, k: nat, t: u16): Option<seq<byte>> {
    if k < |l| && l[k].t == t then Some(l[k].val) else None
  }

  function OnPing(c: Clt, m: Msg, env: Env): Result {
    (c, if c.st == AuthOk && IsReq(m.mtype) then Some(AddAttr(Compose(PING_RES, m.src, m.trf, env.ts), OK, []))
        else None)
  }

  /** The loop over the attributes of an offer. */
  function ReadOffer(d: Transfer, l: seq<Attr>): Transfer
    decreases |l|
  {
    if l == [] then d
    else
      var a := l[0];
      var d' := if a.t == OFFERID then d.(oid := U64Of(a.val))
                else if a.t == FILENAME then d.(name := Some(CStr(a.val)), part := Some(CStr(a.val) + PART))
                else if a.t == SIZE then d.(size := U64Of(a.val))
                else d;
      ReadOffer(d', l[1..])
  }

  /** The entry an offer makes. */
  function NewDownload(m: Msg, env: Env): Transfer {
    ReadOffer(Transfer(Download, m.src, 0, None, None, 0, 0, None, env.now), Attrs(m))
  }

  function OnOffer(c: Clt, m: Msg, env: Env): Result {
    if c.st != AuthOk then (c, None)
    else
      var d := NewDownload(m, env);
      if d.name.None? || d.name.value == [] || d.size == 0 then
        (c.(transfers := [Invalidated(d)] + c.transfers), Some(ErrorResponse(m, SC_BAD_REQUEST, env.text, env.ts)))
      else
        (c.(transfers := [d] + c.transfers),
         Some(AddAttr(AddAttr(Compose(OFFER_RES, m.src, m.trf, env.ts), OFFERID, Be(d.oid, 8)), OK, [])))
  }

  /** A request for a piece of an offered file. */
  function OnGetFile(c: Clt, m: Msg, env: Env): Result {
    var l := Attrs(m);
    if c.st != AuthOk || AttrAt(l, 0, OFFERID).None? then (c, None)
    else
      var oid := U64Of(l[0].val);
      var k := FindTransfer(c.transfers, Offer, m.src, oid);
      if k == |c.transfers| then (c, Some(ErrorResponse(m, SC_NOT_FOUND, env.text, env.ts)))
      else
        var o := c.transfers[k].(tact := env.now);
        var offset := if AttrAt(l, 1, OFFSET).Some? then U64Of(l[1].val) else 0;
        var size := if AttrAt(l, 2, SIZE).Some? then U64Of(l[2].val) else 0;
        if size == 0 then
          (c.(transfers := c.transfers[k := Invalidated(o).(offset := offset)]),
           Some(FileData(m.src, m.trf, env.ts, oid, [])))
        else
          var (o', data, died) := OfferRead(o, c.files, offset, size, env.readLen, env.mem);
          if died then (c.(transfers := c.transfers[k := o'], dead := true), None)
          else match data
          case None =>
            (c.(transfers := c.transfers[k := o']),
             Some(ErrorResponse(m, SC_RANGE_NOT_SATISFIABLE, env.text, env.ts)))
          case Some(bytes) =>
            Sending(c.(transfers := c.transfers[k := o'.(offset := Add64(offset, |bytes| % 0x1_0000_0000_0000_0000))]),
                    FileData(m.src, m.trf, env.ts, oid, bytes))
  }

  const SC_RANGE_NOT_SATISFIABLE: u64 := 416

  /** A piece of a file that is being downloaded; an empty piece ends the download. */
  function OnFileData(c: Clt, m: Msg, env: Env): Result {
    var l := Attrs(m);
    if c.st != AuthOk || AttrAt(l, 0, OFFERID).None? then (c, None)
    else
      var oid := U64Of(l[0].val);
      var k := FindTransfer(c.transfers, Download, m.src, oid);
      if k == |c.transfers| then (c, None)
      else
        var d := c.transfers[k].(tact := env.now);
        var c1 := c.(transfers := c.transfers[k := d]);
        match AttrAt(l, 1, DATA)
        case None => (c1, None)
        case Some(data) =>
          if data == [] then
            var files := if d.part.Some? && d.name.Some? then Renamed(c.files, d.part.value, d.name.value) else c.files;
            (c1.(transfers := c.transfers[k := Invalidated(d)], files := files), None)
          else
            var (d', files, ok) := DownloadWrite(d, c.files, data, env.disk);
            if !ok then (c1.(transfers := c.transfers[k := Invalidated(d')], files := files), None)
            else
              var d'' := d'.(offset := Add64(d.offset, |data| % 0x1_0000_0000_0000_0000));
              (c1.(transfers := c.transfers[k := d''], files := files),
               Some(GetFile(d.rid, env.rnd, env.ts, oid, d''.offset, Chunk(Sub64(d.size, d''.offset)))))
  }

  function OnOfferRes(c: Clt, m: Msg, env: Env): Result {
    var l := Attrs(m);
    if c.st != AuthOk || AttrAt(l, 0, OFFERID).None? then (c, None)
    else
      var k := FindTransfer(c.transfers, Offer, m.src, U64Of(l[0].val));
      if k == |c.transfers| then (c, None)
      else (c.(transfers := c.transfers[k := c.transfers[k].(tact := env.now)]), None)
  }

  function OnLoginRes(c: Clt, m: Msg, env: Env): Result {
    var l := Attrs(m);
    if c.st != PreLogin || m.src != 0 then (c, None)
    else if AttrAt(l, 0, OK).Some? then (c.(st := AuthOk), None)
    else if AttrAt(l, 0, CHALLENGE).Some? && PLAINTEXT <= l[0].val then
      var r := AuthRequest(m.trf, env.ts, c.pubkey);
      Sending(if r.Fits() then c.(st := LoginOk) else c, r)
    else (c, None)
  }

  function OnAuthRes(c: Clt, m: Msg): Result {
    (if c.st == LoginOk && m.src == 0 && AttrAt(Attrs(m), 0, OK).Some? then c.(st := AuthOk) else c, None)
  }

  function OnLogoutRes(c: Clt, m: Msg): Result {
    (if c.st in {LoginOk, AuthOk} && m.src == 0 && AttrAt(Attrs(m), 0, OK).Some? then c.(st := PreLogin) else c, None)
  }

  function OnAuthErr(c: Clt): Result {
    (if c.st == LoginOk then c.(st := PreLogin) else c, None)
  }

  /** `process_srvmsg` without its output to the console. */
  function Handle(c: Clt, m: Msg, env: Env): Result {
    var t := m.mtype;
    if t == PING_REQ || t == PING_IND then OnPing(c, m, env)
    else if t == OFFER_REQ then OnOffer(c, m, env)
    else if t == GETFILE_REQ then OnGetFile(c, m, env)
    else if t == OFFER_RES then OnOfferRes(c, m, env)
    else if t == GETFILE_RES then OnFileData(c, m, env)
    else if t == LOGIN_RES then OnLoginRes(c, m, env)
    else if t == AUTH_RES then OnAuthRes(c, m)
    else if t == LOGOUT_RES then OnLogoutRes(c, m)
    else if t == AUTH_ERR then OnAuthErr(c)
    else (c, None)
  }

  /** A response must answer a pending request, which it consumes; any other message is handled at once. */
  function Receive(c: Clt, m: Msg, env: Env): Result {
    if IsRes(m.mtype) then
      var k := FindPending(c.pending, m);
      if k == |c.pending| then (c, None)
      else Handle(c.(pending := c.pending[..k] + c.pending[k + 1..]), m, env)
    else Handle(c, m, env)
  }

  function Queued(c: Clt, reply: Option<Msg>): Clt {
    if reply.Some? then c.(queue := c.queue + [reply.value]) else c
  }

  function ProcessSrvMsg(c: Clt, m: Msg, env: Env): Clt {
    var (c', reply) := Receive(c, m, env);
    Queued(c', reply)
  }

  /** `dequeue_msg`: a request that has been sent becomes pending. */
  function Dequeue(c: Clt): Clt
    requires c.queue != []
  {
    var m := c.queue[0];
    c.(queue := c.queue[1..], pending := if IsReq(m.mtype) then [m] + c.pending else c.pending)
  }

  /** The `accept` command: the part file is opened, resumed if it exists, and the first piece requested. */
  function AcceptOffer(c: Clt, rid: u64, oid: u64, env: Env): Result {
    var k := FindTransfer(c.transfers, Download, rid, oid);
    if k == |c.transfers| then (c, None)
    else
      var d := c.transfers[k].(tact := env.now);
      var (d1, resumed) := DownloadResume(d, c.files);
      var (d2, files, ok) := if resumed then (d1, c.files, true) else DownloadWrite(d, c.files, [], env.disk);
      var c' := c.(transfers := c.transfers[k := d2], files := files);
      if ok then (c', Some(GetFile(d2.rid, env.rnd, env.ts, oid, d2.offset, Chunk(d2.size)))) else (c', None)
  }
}
