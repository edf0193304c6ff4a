/** The client as the program keeps it: login state, lists of transfers and pending requests, send queue and
    receive buffer, all updated in place (cltmain.c, transfer.c).  Every method is proved to do what the
    function of the same purpose in ClientSpec.dfy or ClientIo.dfy says. */
module Client {
  import opened Bytes
  import opened Message
  import opened Channel
  import opened ServerSpec
  import opened ClientIo
  import C = ClientSpec
  import opened ClientSpec
  import T = TransferFacts

  lemma KeptNext(l: seq<Transfer>, n: nat, timeout: int, now: int)
    requires n < |l|
    ensures Kept(l[..n + 1], timeout, now) == Kept(l[..n], timeout, now) + if l[n].tact + timeout < now then []
              else [l[n]]
  {
    assert l[..n + 1][..n] == l[..n];
  }

  lemma KeptPendingNext(l: seq<Msg>, n: nat, timeout: int, now: int)
    requires n < |l|
    ensures KeptPending(l[..n + 1], timeout, now)
         == KeptPending(l[..n], timeout, now) + if l[n].ts / NS_PER_S + timeout < now then [] else [l[n]]
  {
    assert l[..n + 1][..n] == l[..n];
  }

  /** A list that is kept up to `a` and not yet looked at from `n` on. */
  lemma Middle<T>(a: seq<T>, l: seq<T>, n: nat)
    requires n < |l|
    ensures var s := a + l[n..];
            s[|a|] == l[n] && s[..|a|] + s[|a| + 1..] == a + l[n + 1..] && s == a + [l[n]] + l[n + 1..] && a + [] == a
  {}

  lemma Twice<T>(l: seq<T>, k: nat, x: T, y: T)
    requires k < |l|
    ensures l[k := x][k := y] == l[k := y] && l[k := l[k]] == l
  {}

  lemma WriteLeaves(d: Transfer, files: Files, data: seq<byte>, disk: int)
    ensures var d' := C.DownloadWrite(d, files, data, disk).0;
            d'.offset == d.offset && d'.size == d.size && d'.rid == d.rid
  {}

  lemma ResumeFails(d: Transfer, files: Files)
    ensures !C.DownloadResume(d, files).1 ==> C.DownloadResume(d, files).0 == d
  {}

  class Engine {
    var st: St
    var transfers: seq<Transfer>
    var requests: seq<Msg>
    var queue: seq<Msg>
    var qoff: nat
    var rbuf: Option<Rx>
    var files: Files
    var pubkey: seq<byte>
    var open: bool
    var dead: bool

    ghost function View(): Clt
      reads this
    {
      Clt(st, transfers, requests, queue, files, pubkey, dead)
    }

    ghost function Whole(): Conn
      reads this
    {
      Conn(View(), qoff, rbuf, open)
    }

    // ----- the list of transfers (transfer.c) -----

    method TransferNew(kind: Kind, now: int)
      modifies this`transfers
      ensures transfers == [Transfer(kind, 0, 0, None, None, 0, 0, None, now)] + old(transfers)
    {
      transfers := [Transfer(kind, 0, 0, None, None, 0, 0, None, now)] + transfers;
    }

    /** The index of the first live match, whose time of activity is renewed, or the length of the list. */
    method TransferMatch(kind: Kind, rid: u64, oid: u64, now: int) returns (k: nat)
      modifies this`transfers
      ensures k == FindTransfer(old(transfers), kind, rid, oid)
      ensures transfers == if k < |old(transfers)| then old(transfers)[k := old(transfers)[k].(tact := now)]
                           else old(transfers)
    {
      k := 0;
      while k < |transfers|
        invariant k <= |transfers| && transfers == old(transfers)
        invariant FindTransfer(transfers, kind, rid, oid) == k + FindTransfer(transfers[k..], kind, rid, oid)
      {
        assert transfers[k..][1..] == transfers[k + 1..];
        var t := transfers[k];
        if kind == t.kind && oid == t.oid && rid == t.rid && 0 < t.tact {
          transfers := transfers[k := t.(tact := now)];
          return;
        }
        k := k + 1;
      }
    }

    method TransferInvalidate(k: nat)
      requires k < |transfers|
      modifies this`transfers
      ensures transfers == old(transfers)[k := Invalidated(old(transfers)[k])]
    {
      transfers := transfers[k := transfers[k].(rid := 0, oid := 0)];
      transfers := transfers[k := transfers[k].(tact := 0)];
      transfers := transfers[k := transfers[k].(pos := None)];
    }

    method TransferCloseAll()
      modifies this`transfers
      ensures transfers == Closed(old(transfers))
    {
      for p := 0 to |transfers|
        invariant |transfers| == |old(transfers)|
        invariant forall i | 0 <= i < |transfers| ::
                    transfers[i] == if i < p then old(transfers)[i].(pos := None) else old(transfers)[i]
      {
        if transfers[p].pos.Some? {
          transfers := transfers[p := transfers[p].(pos := None)];
        }
      }
    }

    method TransferUpkeep(timeout: int, now: int)
      modifies this`transfers
      ensures transfers == Kept(old(transfers), timeout, now)
    {
      ghost var l := transfers;
      var p := 0;
      ghost var n := 0;
      assert l[..0] == [] && l[0..] == l;
      while p < |transfers|
        invariant p <= |transfers| && n <= |l|
        invariant transfers == Kept(l[..n], timeout, now) + l[n..] && p == |Kept(l[..n], timeout, now)|
        decreases |transfers| - p
      {
        hide Kept;
        KeptNext(l, n, timeout, now);
        Middle(Kept(l[..n], timeout, now), l, n);
        if transfers[p].tact + timeout < now {
          transfers := transfers[..p] + transfers[p + 1..];
        } else {
          p := p + 1;
        }
        n := n + 1;
      }
      assert l[..n] == l;
    }

    /** The entries that the mask covers are invalidated; returns their number. */
    method TransferRemove(mask: Mask) returns (n: nat)
      modifies this`transfers
      ensures transfers == Removed(old(transfers), mask) && n == Covered(old(transfers), mask)
    {
      n := 0;
      ghost var l := transfers;
      for p := 0 to |transfers|
        invariant |transfers| == |l| && n == Covered(l[..p], mask)
        invariant forall i | 0 <= i < |l| ::
                    transfers[i] == if i < p && mask.Covers(l[i]) then Invalidated(l[i]) else l[i]
      {
        assert l[..p + 1][..p] == l[..p];
        if mask.Covers(transfers[p]) {
          TransferInvalidate(p);
          n := n + 1;
        }
      }
      assert l[..|l|] == l;
    }

    /** The entry is at the head of the list, unless there is no such file. */
    method OfferNew(dest: u64, name: seq<byte>, oid: u64, now: int) returns (ok: bool)
      modifies this`transfers
      ensures ok <==> name in files && |files[name]| <= MAX_OFF
      ensures transfers == if ok
                           then [Transfer(Offer, dest, oid, Some(name), None, |files[name]|, 0, None, now)]
                                + old(transfers)
                           else old(transfers)
    {
      if name !in files || |files[name]| > MAX_OFF {
        return false;
      }
      TransferNew(Offer, now);
      var o := transfers[0].(rid := dest, oid := oid);
      o := o.(name := Some(name), size := |files[name]|);
      transfers := [o] + transfers[1..];
      return true;
    }

    method OfferRead(k: nat, off: u64, size: u64, readLen: nat, mem: nat)
      returns (data: Option<seq<byte>>, died: bool)
      requires k < |transfers|
      modifies this`transfers, this`dead
      ensures var (o, d, e) := C.OfferRead(old(transfers)[k], files, off, size, readLen, mem);
              transfers == old(transfers)[k := o] && data == d && died == e && dead == (old(dead) || e)
    {
      var o := transfers[k];
      if o.name.None? || o.name.value !in files {
        assert transfers[k := o] == transfers;
        return None, false;
      }
      transfers := transfers[k := o.(pos := Some(0))];
      if off >= 0x8000_0000_0000_0000 {
        return None, false;
      }
      if size > mem {
        dead := true;
        return None, true;
      }
      var content := files[o.name.value];
      if off >= |content| || size == 0 {
        transfers := transfers[k := o.(pos := None)];
        return None, false;
      }
      var most := if size < |content| - off then size else |content| - off;
      var n := if readLen == 0 then 1 else if readLen < most then readLen else most;
      return Some(content[off..off + n]), false;
    }

    method DownloadWrite(k: nat, data: seq<byte>, disk: int) returns (ok: bool)
      requires k < |transfers|
      modifies this`transfers, this`files
      ensures var (d, f, r) := C.DownloadWrite(old(transfers)[k], old(files), data, disk);
              transfers == old(transfers)[k := d] && files == f && ok == r
    {
      hide Overwritten;
      var d := transfers[k];
      assert transfers[k := d] == transfers;
      if d.part.None? || (d.pos.None? && d.part.value in files) {
        return false;
      }
      var part := d.part.value;
      var pos := if d.pos.Some? then d.pos.value else 0;
      if part !in files {
        files := files[part := []];
      }
      if disk < |data| {
        files := files[part := Overwritten(files[part], pos, if disk > 0 then data[..disk] else [])];
        transfers := transfers[k := d.(pos := None)];
        return false;
      }
      files := files[part := Overwritten(files[part], pos, data)];
      transfers := transfers[k := d.(pos := Some(pos + |data|))];
      return true;
    }

    method DownloadResume(k: nat) returns (ok: bool)
      requires k < |transfers|
      modifies this`transfers
      ensures var (d, r) := C.DownloadResume(old(transfers)[k], files);
              transfers == old(transfers)[k := d] && ok == r
    {
      var d := transfers[k];
      assert transfers[k := d] == transfers;
      if d.pos.Some? || d.part.None? || d.part.value !in files {
        return false;
      }
      var off := |files[d.part.value]|;
      if off > MAX_OFF {
        return false;
      }
      transfers := transfers[k := d.(pos := Some(off), offset := off)];
      return true;
    }

    // ----- messages and pending requests -----

    method EnqueueMsg(m: Msg)
      modifies this`queue
      ensures queue == old(queue) + [m]
    {
      queue := queue + [m];
    }

    method DequeueMsg()
      requires queue != []
      modifies this`queue, this`qoff, this`requests
      ensures View() == Dequeue(old(View())) && qoff == 0
    {
      if IsReq(queue[0].mtype) {
        requests := [queue[0]] + requests;
      }
      queue := queue[1..];
      qoff := 0;
    }

    /** The pending request that a response answers leaves the list. */
    method MatchPendingReq(m: Msg) returns (q: Option<Msg>)
      modifies this`requests
      ensures var k := FindPending(old(requests), m);
              if k == |old(requests)| then q == None && requests == old(requests)
              else q == Some(old(requests)[k]) && requests == old(requests)[..k] + old(requests)[k + 1..]
    {
      var i := 0;
      while i < |requests|
        invariant i <= |requests| && requests == old(requests)
        invariant FindPending(requests, m) == i + FindPending(requests[i..], m)
      {
        assert requests[i..][1..] == requests[i + 1..];
        if requests[i].dst == m.src && requests[i].trf == m.trf && ToRes(requests[i].mtype) == m.mtype {
          q := Some(requests[i]);
          requests := requests[..i] + requests[i + 1..];
          return;
        }
        i := i + 1;
      }
      return None;
    }

    method UpkeepPending(timeout: int, now: int)
      modifies this`requests
      ensures requests == KeptPending(old(requests), timeout, now)
    {
      ghost var l := requests;
      var i := 0;
      ghost var n := 0;
      assert l[..0] == [] && l[0..] == l;
      while i < |requests|
        invariant i <= |requests| && n <= |l|
        invariant requests == KeptPending(l[..n], timeout, now) + l[n..] && i == |KeptPending(l[..n], timeout, now)|
        decreases |requests| - i
      {
        hide KeptPending;
        KeptPendingNext(l, n, timeout, now);
        Middle(KeptPending(l[..n], timeout, now), l, n);
        if requests[i].ts / NS_PER_S + timeout < now {
          requests := requests[..i] + requests[i + 1..];
        } else {
          i := i + 1;
        }
        n := n + 1;
      }
      assert l[..n] == l;
    }

    /** The housekeeping of the main loop. */
    method Upkeep(respTimeout: int, offerTimeout: int, trf: u64, env: C.Env)
      modifies this`queue, this`requests, this`transfers
      ensures var (c, ping) := AfterUpkeep(old(View()), respTimeout, offerTimeout, trf, env); View() == Queued(c, ping)
    {
      hide Kept, KeptPending;
      if st.AuthOk? {
        EnqueueMsg(C.Compose(PING_IND, 0, trf, env.ts));
      }
      UpkeepPending(respTimeout, env.now);
      TransferUpkeep(offerTimeout, env.now);
    }

    // ----- messages from the server (process_srvmsg) -----

    method ProcessOffer(m: Msg, env: C.Env) returns (reply: Option<Msg>)
      modifies this`transfers
      ensures (View(), reply) == OnOffer(old(View()), m, env)
    {
      if !st.AuthOk? {
        return None;
      }
      ghost var l0 := transfers;
      TransferNew(Download, env.now);
      transfers := transfers[0 := transfers[0].(rid := m.src)];
      ghost var d := transfers[0];
      var l := Attrs(m);
      for i := 0 to |l|
        invariant |transfers| == 1 + |l0| && transfers[1..] == l0
        invariant ReadOffer(d, l) == ReadOffer(transfers[0], l[i..])
      {
        assert l[i..][1..] == l[i + 1..];
        var t := transfers[0];
        if l[i].t == OFFERID {
          t := t.(oid := U64Of(l[i].val));
        } else if l[i].t == FILENAME {
          t := t.(name := Some(CStr(l[i].val)), part := Some(CStr(l[i].val) + PART));
        } else if l[i].t == SIZE {
          t := t.(size := U64Of(l[i].val));
        }
        transfers := transfers[0 := t];
      }
      assert transfers[0] == NewDownload(m, env) && transfers == [transfers[0]] + l0;
      if transfers[0].name.None? || transfers[0].name.value == [] || transfers[0].size == 0 {
        TransferInvalidate(0);
        assert transfers == [transfers[0]] + l0;
        return Some(ErrorResponse(m, SC_BAD_REQUEST, env.text, env.ts));
      }
      return Some(AddAttr(AddAttr(Compose(OFFER_RES, m.src, m.trf, env.ts), OFFERID, Be(transfers[0].oid, 8)), OK, []));
    }

    /** `mbuf_addattrib` for the last attribute of a message: the process ends if it does not fit. */
    method Finish(m: Msg) returns (reply: Option<Msg>)
      modifies this`dead
      ensures (View(), reply) == Sending(old(View()), m)
    {
      if |m.pay| > MSG_MAX_PAY_SIZE {
        dead := true;
        return None;
      }
      return Some(m);
    }

    method ProcessGetFile(m: Msg, env: C.Env) returns (reply: Option<Msg>)
      modifies this`transfers, this`dead
      ensures (View(), reply) == OnGetFile(old(View()), m, env)
    {
      hide ErrorResponse, FileData, C.OfferRead, FindTransfer, Attrs, U64Of;
      var l := Attrs(m);
      if !st.AuthOk? || l == [] || l[0].t != OFFERID {
        return None;
      }
      var oid := U64Of(l[0].val);
      var offset, size := 0, 0;
      var k := TransferMatch(Offer, m.src, oid, env.now);
      if k == |transfers| {
        return Some(ErrorResponse(m, SC_NOT_FOUND, env.text, env.ts));
      }
      if 1 < |l| && l[1].t == OFFSET {
        offset := U64Of(l[1].val);
      }
      if 2 < |l| && l[2].t == SIZE {
        size := U64Of(l[2].val);
      }
      ghost var o := transfers[k];
      var bytes: seq<byte> := [];
      if size == 0 {
        TransferInvalidate(k);
      } else {
        var data, died := OfferRead(k, offset, size, env.readLen, env.mem);
        Twice(old(transfers), k, o, transfers[k]);
        if died {
          return None;
        }
        if data.None? {
          return Some(ErrorResponse(m, SC_RANGE_NOT_SATISFIABLE, env.text, env.ts));
        }
        bytes := data.value;
      }
      var was := transfers[k];
      transfers := transfers[k := was.(offset := Add64(offset, |bytes| % 0x1_0000_0000_0000_0000))];
      Twice(old(transfers), k, o, was);
      Twice(old(transfers), k, was, transfers[k]);
      T.PieceFits(m.src, m.trf, env.ts, oid, []);
      reply := Finish(FileData(m.src, m.trf, env.ts, oid, bytes));
    }

    method ProcessFileData(m: Msg, env: C.Env) returns (reply: Option<Msg>)
      modifies this`transfers, this`files
      ensures (View(), reply) == OnFileData(old(View()), m, env)
    {
      hide GetFile, C.DownloadWrite, FindTransfer, Renamed, Chunk;
      var l := Attrs(m);
      if !st.AuthOk? || l == [] || l[0].t != OFFERID {
        return None;
      }
      var oid := U64Of(l[0].val);
      var k := TransferMatch(Download, m.src, oid, env.now);
      if |l| < 2 || l[1].t != DATA || k == |transfers| {
        return None;
      }
      var data := l[1].val;
      if data == [] {
        var d := transfers[k];
        TransferInvalidate(k);
        Twice(old(transfers), k, d, transfers[k]);
        if d.part.Some? && d.name.Some? {
          files := Renamed(files, d.part.value, d.name.value);
        }
        return None;
      }
      ghost var d0 := transfers[k];
      var ok := DownloadWrite(k, data, env.disk);
      ghost var d1 := transfers[k];
      Twice(old(transfers), k, d0, d1);
      if !ok {
        TransferInvalidate(k);
        Twice(old(transfers), k, d1, transfers[k]);
        return None;
      }
      WriteLeaves(d0, old(files), data, env.disk);
      var offset := Add64(transfers[k].offset, |data| % 0x1_0000_0000_0000_0000);
      transfers := transfers[k := transfers[k].(offset := offset)];
      Twice(old(transfers), k, d1, transfers[k]);
      var d := transfers[k];
      return Some(GetFile(d.rid, env.rnd, env.ts, oid, d.offset, Chunk(Sub64(d.size, d.offset))));
    }

    method ProcessOfferRes(m: Msg, env: C.Env)
      modifies this`transfers
      ensures (View(), None) == OnOfferRes(old(View()), m, env)
    {
      hide FindTransfer;
      var l := Attrs(m);
      if !st.AuthOk? || l == [] || l[0].t != OFFERID {
        return;
      }
      var k := TransferMatch(Offer, m.src, U64Of(l[0].val), env.now);
    }

    method ProcessLoginRes(m: Msg, env: C.Env) returns (reply: Option<Msg>)
      modifies this`st, this`dead
      ensures (View(), reply) == OnLoginRes(old(View()), m, env)
    {
      hide AuthRequest;
      var l := Attrs(m);
      if !st.PreLogin? || m.src != 0 || l == [] {
        return None;
      }
      if l[0].t == OK {
        st := AuthOk;
      } else if l[0].t == CHALLENGE && PLAINTEXT <= l[0].val {
        reply := Finish(AuthRequest(m.trf, env.ts, pubkey));
        if reply.Some? {
          st := LoginOk;
        }
        return;
      }
      return None;
    }

    method ProcessHandled(m: Msg, env: C.Env) returns (reply: Option<Msg>)
      modifies this`st, this`transfers, this`files, this`dead
      ensures (View(), reply) == Handle(old(View()), m, env)
    {
      hide OnOffer, OnGetFile, OnOfferRes, OnFileData, OnLoginRes, Attrs, AddAttr;
      var t := m.mtype;
      var l := Attrs(m);
      reply := None;
      if t == PING_REQ || t == PING_IND {
        if st.AuthOk? && IsReq(t) {
          reply := Some(AddAttr(Compose(PING_RES, m.src, m.trf, env.ts), OK, []));
        }
      } else if t == OFFER_REQ {
        reply := ProcessOffer(m, env);
      } else if t == GETFILE_REQ {
        reply := ProcessGetFile(m, env);
      } else if t == OFFER_RES {
        ProcessOfferRes(m, env);
      } else if t == GETFILE_RES {
        reply := ProcessFileData(m, env);
      } else if t == LOGIN_RES {
        reply := ProcessLoginRes(m, env);
      } else if t == AUTH_RES {
        if st.LoginOk? && m.src == 0 && l != [] && l[0].t == OK {
          st := AuthOk;
        }
      } else if t == LOGOUT_RES {
        if (st.LoginOk? || st.AuthOk?) && m.src == 0 && l != [] && l[0].t == OK {
          st := PreLogin;
        }
      } else if t == AUTH_ERR {
        if st.LoginOk? {
          st := PreLogin;
        }
      }
    }

    /** A response that answers no pending request is dropped. */
    method ProcessSrvMsg(m: Msg, env: C.Env)
      modifies this`st, this`transfers, this`files, this`requests, this`queue, this`dead
      ensures View() == C.ProcessSrvMsg(old(View()), m, env)
    {
      hide Handle, FindPending;
      if IsRes(m.mtype) {
        var q := MatchPendingReq(m);
        if q.None? {
          return;
        }
      }
      var reply := ProcessHandled(m, env);
      if reply.Some? {
        EnqueueMsg(reply.value);
      }
    }

    // ----- commands -----

    /** `accept` */
    method CmdAccept(rid: u64, oid: u64, env: C.Env)
      modifies this`transfers, this`files, this`queue
      ensures var (c, reply) := AcceptOffer(old(View()), rid, oid, env); View() == Queued(c, reply)
    {
      hide GetFile, C.DownloadWrite, C.DownloadResume, FindTransfer, Chunk;
      var k := TransferMatch(Download, rid, oid, env.now);
      if k == |transfers| {
        return;
      }
      ghost var d0 := transfers[k];
      var ok := DownloadResume(k);
      ghost var d1 := transfers[k];
      Twice(old(transfers), k, d0, d1);
      if !ok {
        ResumeFails(d0, files);
        ok := DownloadWrite(k, [], env.disk);
        Twice(old(transfers), k, d1, transfers[k]);
        if !ok {
          return;
        }
      }
      var d := transfers[k];
      EnqueueMsg(GetFile(d.rid, env.rnd, env.ts, oid, d.offset, Chunk(d.size)));
    }

    /** `offer` */
    method CmdOffer(dest: u64, name: seq<byte>, base: seq<byte>, oid: u64, trf: u64, env: C.Env)
      modifies this`transfers, this`queue, this`dead
      ensures var (c, reply) := OfferFile(old(View()), dest, name, base, oid, trf, env); View() == Queued(c, reply)
    {
      hide AddAttr;
      if !st.AuthOk? {
        return;
      }
      var ok := OfferNew(dest, name, oid, env.now);
      if !ok {
        return;
      }
      var m := Compose(OFFER_REQ, transfers[0].rid, trf, env.ts);
      m := AddAttr(m, OFFERID, Be(transfers[0].oid, 8));
      m := AddAttr(m, FILENAME, base + [0]);
      m := AddAttr(m, SIZE, Be(transfers[0].size, 8));
      var req := Finish(m);
      if req.Some? {
        EnqueueMsg(m);
      }
    }

    // ----- the connection -----

    method Disconnect()
      modifies this`st, this`transfers, this`open
      ensures Whole() == Dropped(old(Whole()))
    {
      TransferCloseAll();
      open := false;
      st := Invalid;
    }

    method ReadReady(rd: ReadResult, env: C.Env)
      requires Whole().Ok()
      modifies this
      ensures Whole() == ReadSrv(old(Whole()), rd, env)
    {
      hide C.ProcessSrvMsg, Unmarshal, HdrGetPaylen;
      if rbuf.None? {
        rbuf := Some(EMPTY_RX);
      }
      if rd.ReadAgain? {
        return;
      }
      if rd.ReadFailed? || rd.bytes == [] {
        Disconnect();
        return;
      }
      var rx := rbuf.value;
      var got := rx.got + rd.bytes[..Min(|rd.bytes|, rx.size - |rx.got|)];
      var size := rx.size;
      if |got| == size && |got| == MSG_HDR_SIZE {
        var paylen := HdrGetPaylen(got);
        if paylen > 0 {
          if paylen > MSG_MAX_PAY_SIZE {
            dead := true;
            return;
          }
          size := MSG_HDR_SIZE + paylen;
        }
      }
      if |got| == size {
        rbuf := None;
        ProcessSrvMsg(Unmarshal(got), env);
      } else {
        rbuf := Some(Rx(got, size));
      }
    }

    method WriteReady(wr: WriteResult)
      requires Whole().Ok() && queue != []
      modifies this
      ensures Whole() == WriteSrv(old(Whole()), wr)
    {
      if wr.WriteAgain? {
        return;
      }
      if wr.WriteFailed? || wr.n == 0 {
        Disconnect();
        return;
      }
      var size := MSG_HDR_SIZE + |queue[0].pay|;
      qoff := qoff + Min(wr.n, size - qoff);
      if qoff == size {
        DequeueMsg();
      }
    }

    /** One pass: `writable` can only be reported when there was something to send. */
    method HandleIo(nset: int, readable: bool, writable: bool, rd: ReadResult, wr: WriteResult, env: C.Env)
      returns (left: int)
      requires Whole().Ok() && !dead && (writable ==> queue != [])
      modifies this
      ensures (Whole(), left) == HandleSrvIo(old(Whole()), nset, readable, writable, rd, wr, env)
      ensures Whole().Ok()
    {
      hide ReadSrv, WriteSrv;
      PassKeeps(Whole(), nset, readable, writable, rd, wr, env);
      left := nset;
      if !open {
        return;
      }
      if readable {
        left := left - 1;
        ReadKeeps(Whole(), rd, env);
        ReadReady(rd, env);
        if dead || !open {
          return;
        }
      }
      if 0 < left && writable {
        left := left - 1;
        WriteReady(wr);
      }
    }
  }
}
