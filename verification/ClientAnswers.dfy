/** What the client makes of every message, in numbers: the types, codes and attributes of its answers, and the
    entries of its list. */
module ClientAnswers {
  import opened Bytes
  import opened Message
  import opened ClientSpec
  import opened ClientIo
  import opened TransferFacts
  import opened ServerAnswers

  /** `r` answers `m` with the type `t`. */
  predicate Answers(r: Msg, t: u16, m: Msg) { r.mtype == t && r.dst == m.src && r.trf == m.trf }

  /** The last attribute of type `t` has the value `v`. */
  ghost predicate Last(l: seq<Attr>, t: u16, v: seq<byte>) {
    exists k | 0 <= k < |l| :: l[k] == Attr(t, v) && forall j | k < j < |l| :: l[j].t != t
  }

  ghost predicate Lacks(l: seq<Attr>, t: u16) { forall a <- l :: a.t != t }

  /** ".part" */
  const SUFFIX: seq<byte> := [46, 112, 97, 114, 116]

  lemma SuffixIs()
    ensures PART == SUFFIX
  {}

  // ----- PING -----

  /** A PING is answered by whoever is logged in. */
  lemma PingAnswers(c: Clt, m: Msg, env: Env)
    requires m.mtype == 0x0201
    ensures var (c', r) := Handle(c, m, env);
            && c' == c && (r.Some? <==> c.st.AuthOk?)
            && (r.Some? ==> Answers(r.value, 0x0202, m) && Attrs(r.value) == [Attr(0x0041, [])])
  {
    var a := Attr(OK, []);
    OneAttr(Compose(PING_RES, m.src, m.trf, env.ts), a);
    hide AddAttr, Attrs;
  }

  lemma OneAttr(m: Msg, a: Attr)
    requires m.pay == [] && |a.val| < 0x1_0000
    ensures Attrs(AddAttr(m, a.t, a.val)) == [a]
  {
    hide Tlv, EncAttr;
    TlvOfEncAttr(a, []);
    TlvEmpty();
    assert AddAttr(m, a.t, a.val).pay == EncAttr(a) + [] && [a] + [] == [a];
  }

  lemma TwoAttrs(m: Msg, a: Attr, b: Attr)
    requires m.pay == [] && |a.val| < 0x1_0000 && |b.val| < 0x1_0000
    ensures Attrs(AddAttr(AddAttr(m, a.t, a.val), b.t, b.val)) == [a, b]
  {
    hide Tlv, EncAttr;
    TlvOfEncAttr(a, EncAttr(b) + []);
    TlvOfEncAttr(b, []);
    TlvEmpty();
    assert AddAttr(AddAttr(m, a.t, a.val), b.t, b.val).pay == EncAttr(a) + (EncAttr(b) + []);
    assert [a] + ([b] + []) == [a, b];
  }

  /** A refusal by the client. */
  lemma RefusalIs(m: Msg, ec: u64, text: seq<byte>, ts: u64)
    ensures var r := ErrorResponse(m, ec, text, ts); Answers(r, ErrorOf(m.mtype), m) && Says(r, ec)
  {
    hide EncAttr, Tlv, Be;
    var a, b := Attr(ERROR, Be(ec, 8)), Attr(NOTICE, text + [0]);
    TlvOfEncAttr(a, EncAttr(b));
    assert ErrorResponse(m, ec, text, ts).pay == EncAttr(a) + EncAttr(b);
  }

  // ----- OFFER -----

  lemma LastSnoc(l: seq<Attr>, a: Attr, t: u16, v: seq<byte>)
    ensures Last(l + [a], t, v) <==> if a.t == t then a.val == v else Last(l, t, v)
    ensures Lacks(l + [a], t) <==> Lacks(l, t) && a.t != t
  {
    var m := l + [a];
    if Last(l, t, v) && a.t != t {
      var k :| 0 <= k < |l| && l[k] == Attr(t, v) && forall j | k < j < |l| :: l[j].t != t;
      assert m[k] == Attr(t, v);
    }
    if Last(m, t, v) {
      var k :| 0 <= k < |m| && m[k] == Attr(t, v) && forall j | k < j < |m| :: m[j].t != t;
      if k < |l| { assert l[k] == Attr(t, v) && m[|l|] == a && forall j | k < j < |l| :: l[j] == m[j]; }
    }
    if a.t == t && a.val == v { assert m[|l|] == Attr(t, v); }
    if Lacks(m, t) {
      assert m[|l|] == a && forall x <- l :: x in m;
    }
  }

  lemma ReadOfferCons(d: Transfer, l: seq<Attr>)
    requires l != []
    ensures ReadOffer(d, l) == ReadOffer(ReadOffer(d, [l[0]]), l[1..])
  {
    hide CStr, U64Of, PART;
    assert [l[0]][1..] == [];
  }

  lemma {:induction false} ReadOfferSnoc(d: Transfer, l: seq<Attr>, a: Attr)
    ensures ReadOffer(d, l + [a]) == ReadOffer(ReadOffer(d, l), [a])
    decreases |l|
  {
    if l == [] {
      assert l + [a] == [a];
    } else {
      assert (l + [a])[1..] == l[1..] + [a] && (l + [a])[0] == l[0];
      ReadOfferCons(d, l + [a]);
      ReadOfferCons(d, l);
      ReadOfferSnoc(ReadOffer(d, [l[0]]), l[1..], a);
      hide ReadOffer;
    }
  }

  /** What the attributes of an offer amount to: of each kind the last one counts. */
  lemma {:induction false} OfferReads(d: Transfer, l: seq<Attr>)
    ensures var e := ReadOffer(d, l);
            && e == d.(oid := e.oid, name := e.name, part := e.part, size := e.size)
            && (forall v :: Last(l, 0x0021, v) ==> e.oid == U64Of(v))
            && (forall v :: Last(l, 0x0022, v) ==> e.name == Some(CStr(v)) && e.part == Some(CStr(v) + SUFFIX))
            && (forall v :: Last(l, 0x0023, v) ==> e.size == U64Of(v))
            && (Lacks(l, 0x0022) ==> e.name == d.name) && (Lacks(l, 0x0023) ==> e.size == d.size)
    decreases |l|
  {
    SuffixIs();
    hide CStr, U64Of;
    if l != [] {
      var front, a := l[..|l| - 1], l[|l| - 1];
      assert l == front + [a];
      OfferReads(d, front);
      ReadOfferSnoc(d, front, a);
      var e := ReadOffer(d, front);
      assert [a][1..] == [];
      OfferStep(e, a);
      hide ReadOffer, Last, Lacks;
      forall t, v
        ensures Last(l, t, v) <==> if a.t == t then a.val == v else Last(front, t, v)
        ensures Lacks(l, t) <==> Lacks(front, t) && a.t != t
      {
        LastSnoc(front, a, t, v);
      }
    }
  }

  lemma OfferStep(d: Transfer, a: Attr)
    ensures ReadOffer(d, [a])
         == if a.t == 0x0021 then d.(oid := U64Of(a.val))
            else if a.t == 0x0022 then d.(name := Some(CStr(a.val)), part := Some(CStr(a.val) + SUFFIX))
            else if a.t == 0x0023 then d.(size := U64Of(a.val))
            else d
  {
    SuffixIs();
    assert [a][1..] == [];
  }

  /** An offer with an id, a name and a size, in whatever order, becomes an entry and is accepted. */
  lemma OfferAnswers(c: Clt, m: Msg, env: Env, oid: u64, fname: seq<byte>, name: seq<byte>, size: u64)
    requires c.st.AuthOk? && m.mtype == 0x0111
    requires Last(Attrs(m), 0x0021, Be(oid, 8)) && Last(Attrs(m), 0x0022, fname) && Last(Attrs(m), 0x0023, Be(size, 8))
    requires UpToNul(fname, name) && name != [] && size != 0
    ensures var (c', r) := Handle(c, m, env);
            && c' == c.(transfers := [Transfer(Download, m.src, oid, Some(name), Some(name + SUFFIX), size, 0, None,
                                               env.now)] + c.transfers)
            && r.Some? && Answers(r.value, 0x0112, m)
            && Attrs(r.value) == [Attr(0x0021, Be(oid, 8)), Attr(0x0041, [])]
  {
    U64OfBe(oid);
    U64OfBe(size);
    TextIs(fname, name);
    OfferReads(Transfer(Download, m.src, 0, None, None, 0, 0, None, env.now), Attrs(m));
    TwoAttrs(Compose(OFFER_RES, m.src, m.trf, env.ts), Attr(OFFERID, Be(oid, 8)), Attr(OK, []));
    hide ReadOffer, Attrs, AddAttr, Be, U64Of, CStr, Last;
  }

  /** An offer without a name, with an empty one, without a size or with size 0 is refused, and leaves an entry that
      matches nothing. */
  lemma BadOfferAnswers(c: Clt, m: Msg, env: Env)
    requires c.st.AuthOk? && m.mtype == 0x0111
    requires || Lacks(Attrs(m), 0x0022) || (exists v :: Last(Attrs(m), 0x0022, v) && (v == [] || v[0] == 0))
             || Lacks(Attrs(m), 0x0023) || (exists v :: Last(Attrs(m), 0x0023, v) && (|v| < 8 || v[..8] == Be(0, 8)))
    ensures var (c', r) := Handle(c, m, env);
            && r.Some? && Answers(r.value, 0x011a, m) && Says(r.value, 400)
            && |c'.transfers| == |c.transfers| + 1 && c' == c.(transfers := [c'.transfers[0]] + c.transfers)
            && c'.transfers[0].tact == 0
  {
    hide ReadOffer, Attrs, AddAttr, ErrorResponse, Be, U64Of, CStr, Last, Says;
    RefusalIs(m, 400, env.text, env.ts);
    BadOffer(m, env);
  }

  lemma BadOffer(m: Msg, env: Env)
    requires || Lacks(Attrs(m), 0x0022) || (exists v :: Last(Attrs(m), 0x0022, v) && (v == [] || v[0] == 0))
             || Lacks(Attrs(m), 0x0023) || (exists v :: Last(Attrs(m), 0x0023, v) && (|v| < 8 || v[..8] == Be(0, 8)))
    ensures var d := NewDownload(m, env); d.name.None? || d.name.value == [] || d.size == 0
  {
    hide ReadOffer, Attrs, Last, Be, U64Of;
    OfferReads(Transfer(Download, m.src, 0, None, None, 0, 0, None, env.now), Attrs(m));
    forall v | |v| < 8 || v[..8] == Be(0, 8)
      ensures U64Of(v) == 0
    {
      ZeroSize(v);
    }
  }

  lemma ZeroSize(v: seq<byte>)
    requires |v| < 8 || v[..8] == Be(0, 8)
    ensures U64Of(v) == 0
  {
    if |v| >= 8 {
      FromBeBe(0, 8);
      assert v[0..8] == Be(0, 8);
    }
  }

  /** Whoever is not logged in takes no notice of offers, requests for files and pieces of files. */
  lemma NotLoggedIn(c: Clt, m: Msg, env: Env)
    requires !c.st.AuthOk? && m.mtype in {0x0111, 0x0112, 0x0121, 0x0122, 0x0201}
    ensures Handle(c, m, env) == (c, None)
  {
    hide Attrs, FindTransfer, OfferRead, DownloadWrite, U64Of, ReadOffer;
  }

  /** An accepted offer stays alive: its time of activity is renewed, and nothing else happens. */
  lemma OfferResRenews(c: Clt, m: Msg, env: Env, oid: u64, k: nat)
    requires c.st.AuthOk? && m.mtype == 0x0112 && Attrs(m) != [] && Attrs(m)[0] == Attr(0x0021, Be(oid, 8))
    requires k < |c.transfers| && IsOffer(c.transfers[k], m.src, oid)
    requires forall j | 0 <= j < k :: !IsOffer(c.transfers[j], m.src, oid)
    ensures Handle(c, m, env) == (c.(transfers := c.transfers[k := c.transfers[k].(tact := env.now)]), None)
  {
    U64OfBe(oid);
    FoundAt(c.transfers, m.src, oid, k);
    hide Attrs, Be, U64Of, FindTransfer;
  }

  /** A live offer to `rid`. */
  predicate IsOffer(t: Transfer, rid: u64, oid: u64) { t.kind == Offer && t.rid == rid && t.oid == oid && t.tact > 0 }

  lemma FoundAt(l: seq<Transfer>, rid: u64, oid: u64, k: nat)
    requires k < |l| && IsOffer(l[k], rid, oid) && forall j | 0 <= j < k :: !IsOffer(l[j], rid, oid)
    ensures FindTransfer(l, Offer, rid, oid) == k
  {
    var f := FindTransfer(l, Offer, rid, oid);
    if f < k { assert Matches(l[f], Offer, rid, oid); }
    if k < f { assert Matches(l[k], Offer, rid, oid); }
  }

  lemma NoneFound(l: seq<Transfer>, rid: u64, oid: u64)
    requires forall t <- l :: !IsOffer(t, rid, oid)
    ensures FindTransfer(l, Offer, rid, oid) == |l|
  {
    var k := FindTransfer(l, Offer, rid, oid);
    assert k < |l| ==> IsOffer(l[k], rid, oid);
  }

  // ----- GETFILE -----

  /** Whoever has not been offered the file is told that it is not there. */
  lemma NotOffered(c: Clt, m: Msg, env: Env, oid: u64)
    requires c.st.AuthOk? && m.mtype == 0x0121 && Attrs(m) != [] && Attrs(m)[0] == Attr(0x0021, Be(oid, 8))
    requires forall t <- c.transfers :: !IsOffer(t, m.src, oid)
    ensures var (c', r) := Handle(c, m, env);
            c' == c && r.Some? && Answers(r.value, 0x012a, m) && Says(r.value, 404)
  {
    hide Attrs, Be, U64Of, FindTransfer, ErrorResponse, OfferRead, Says;
    U64OfBe(oid);
    NoneFound(c.transfers, m.src, oid);
    RefusalIs(m, 404, env.text, env.ts);
  }

  /** Whoever asks beyond the end of an offered file, or for one that is gone, is told that there is nothing. */
  lemma BeyondTheEnd(c: Clt, m: Msg, env: Env, oid: u64, offset: u64, size: u64, k: nat)
    requires c.st.AuthOk? && m.mtype == 0x0121 && 0 < size <= env.mem
    requires Attrs(m) == [Attr(0x0021, Be(oid, 8)), Attr(0x0025, Be(offset, 8)), Attr(0x0023, Be(size, 8))]
    requires k < |c.transfers| && IsOffer(c.transfers[k], m.src, oid)
    requires forall j | 0 <= j < k :: !IsOffer(c.transfers[j], m.src, oid)
    requires var f := c.transfers[k].name; f.Some? && f.value in c.files ==> offset >= |c.files[f.value]|
    ensures var (c', r) := Handle(c, m, env);
            && r.Some? && Answers(r.value, 0x012a, m) && Says(r.value, 416)
            && c' == c.(transfers := c'.transfers)
  {
    hide Attrs, Be, U64Of, FindTransfer, ErrorResponse, Says;
    U64OfBe(oid);
    U64OfBe(offset);
    U64OfBe(size);
    FoundAt(c.transfers, m.src, oid, k);
    RefusalIs(m, 416, env.text, env.ts);
  }

  // ----- pieces -----

  /** A message about a file that is not being downloaded from its sender has no effect; one without a piece is a sign
      of life. */
  lemma NoPiece(c: Clt, m: Msg, env: Env)
    requires c.st.AuthOk? && m.mtype == 0x0122
    requires |Attrs(m)| < 2 || Attrs(m)[1].t != 0x0026
    ensures var (c', r) := Handle(c, m, env);
            && r.None? && c' == c.(transfers := c'.transfers) && |c'.transfers| == |c.transfers|
            && forall k | 0 <= k < |c.transfers| ::
                 c'.transfers[k]
                 == if Serves(c.transfers, k, m) then c.transfers[k].(tact := env.now) else c.transfers[k]
  {
    var l := Attrs(m);
    if l != [] && l[0].t == 0x0021 {
      var oid := U64Of(l[0].val);
      var f := FindTransfer(c.transfers, Download, m.src, oid);
      hide FindTransfer, U64Of, Attrs;
      FirstDownload(c.transfers, m.src, oid, f);
      assert forall k | 0 <= k < |c.transfers| :: Serves(c.transfers, k, m) <==> k == f;
    } else {
      hide FindTransfer, U64Of, Attrs;
    }
  }

  /** The first live download from the sender of the offer that the message names first. */
  predicate Serves(l: seq<Transfer>, k: nat, m: Msg)
    requires k < |l|
  {
    && Attrs(m) != [] && Attrs(m)[0].t == 0x0021
    && IsDownload(l[k], m.src, U64Of(Attrs(m)[0].val))
    && forall j | 0 <= j < k :: !IsDownload(l[j], m.src, U64Of(Attrs(m)[0].val))
  }

  lemma FirstDownload(l: seq<Transfer>, rid: u64, oid: u64, f: nat)
    requires f == FindTransfer(l, Download, rid, oid)
    ensures forall k | 0 <= k < |l| ::
              IsDownload(l[k], rid, oid) && (forall j | 0 <= j < k :: !IsDownload(l[j], rid, oid)) <==> k == f
  {
    assert forall k | 0 <= k < |l| :: IsDownload(l[k], rid, oid) <==> Matches(l[k], Download, rid, oid);
    hide FindTransfer, IsDownload, Matches;
  }

  /** A download that is running can be accepted again: its file stays open where it is, and it asks once more from its
      offset on. */
  lemma AcceptAgain(c: Clt, rid: u64, oid: u64, env: Env, k: nat)
    requires k < |c.transfers| && IsDownload(c.transfers[k], rid, oid) && env.disk >= 0
    requires forall j | 0 <= j < k :: !IsDownload(c.transfers[j], rid, oid)
    requires var d := c.transfers[k]; d.pos.Some? && d.part.Some? && d.part.value in c.files
    ensures var (c', r) := AcceptOffer(c, rid, oid, env);
            var d := c.transfers[k];
            && c' == c.(transfers := c.transfers[k := d.(tact := env.now)])
            && r.Some? && r.value.mtype == 0x0121 && r.value.dst == rid
            && Attrs(r.value) == [Attr(0x0021, Be(oid, 8)), Attr(0x0025, Be(d.offset, 8)),
                                  Attr(0x0023, Be(if d.size < 65376 then d.size else 65376, 8))]
  {
    var d := c.transfers[k];
    FirstDownload(c.transfers, rid, oid, FindTransfer(c.transfers, Download, rid, oid));
    GetFileAttrs(rid, env.rnd, env.ts, oid, d.offset, Chunk(d.size));
    hide Attrs, AddAttr, Be, FindTransfer, IsDownload;
    WroteNothing(d.(tact := env.now), c.files, env.disk);
    hide DownloadWrite;
    GetFileFields(rid, env.rnd, env.ts, oid, d.offset, Chunk(d.size));
  }

  lemma GetFileFields(dst: u64, trf: u64, ts: u64, oid: u64, offset: u64, size: u64)
    ensures var m := GetFile(dst, trf, ts, oid, offset, size); m.mtype == 0x0121 && m.dst == dst && m.trf == trf
  {}

  lemma WroteNothing(d: Transfer, files: Files, disk: int)
    requires d.pos.Some? && d.part.Some? && d.part.value in files && disk >= 0
    ensures DownloadWrite(d, files, [], disk) == (d, files, true)
  {
    assert files[d.part.value := files[d.part.value]] == files;
  }

  // ----- LOGIN, AUTH, LOGOUT -----

  /** What the client makes of the server's answer to LOGIN: it is in; or it is challenged and presents its password
      behind the prefix; or nothing. */
  lemma LoginMeans(c: Clt, m: Msg, env: Env)
    requires m.mtype == 0x0012 && |c.pubkey| <= 60000
    ensures var (c', r) := Handle(c, m, env);
            if !c.st.PreLogin? || m.src != 0 then c' == c && r.None?
            else if LeadsWith(m, 0x0041) then c' == c.(st := c'.st) && c'.st.AuthOk? && r.None?
            else if LeadsWith(m, 0x0003) && PREFIX <= Attrs(m)[0].val then
              && c' == c.(st := c'.st) && c'.st.LoginOk?
              && r.Some? && r.value.mtype == 0x0021 && r.value.dst == 0 && r.value.trf == m.trf
              && Attrs(r.value) == [Attr(0x0004, PREFIX + c.pubkey + [0])]
            else c' == c && r.None?
  {
    PrefixIs();
    OneAttr(Compose(AUTH_REQ, 0, m.trf, env.ts), Attr(DIGEST, PREFIX + c.pubkey + [0]));
    AuthFits(m.trf, env.ts, c.pubkey);
    hide Attrs, AddAttr, Msg.Fits;
  }

  lemma AuthFits(trf: u64, ts: u64, pubkey: seq<byte>)
    requires |pubkey| <= 60000
    ensures AuthRequest(trf, ts, pubkey).Fits()
  {}

  /** Every other message that moves the login: AUTH accepted or refused, LOGOUT confirmed. */
  lemma AuthMeans(c: Clt, m: Msg, env: Env)
    requires m.mtype in {0x0022, 0x002a, 0x0032}
    ensures var (c', r) := Handle(c, m, env);
            && r.None? && c' == c.(st := c'.st)
            && (if m.mtype == 0x002a then (if c.st.LoginOk? then c'.st.PreLogin? else c'.st == c.st)
                else if m.src != 0 || !LeadsWith(m, 0x0041) then c'.st == c.st
                else if m.mtype == 0x0022 then (if c.st.LoginOk? then c'.st.AuthOk? else c'.st == c.st)
                else (if c.st.LoginOk? || c.st.AuthOk? then c'.st.PreLogin? else c'.st == c.st))
  {
    hide Attrs;
  }

  // ----- what is not answered -----

  /** Everything else is only shown to the user. */
  lemma Unheard(c: Clt, m: Msg, env: Env)
    requires m.mtype !in {0x0201, 0x0111, 0x0112, 0x0121, 0x0122, 0x0012, 0x0022, 0x0032, 0x002a}
    ensures Handle(c, m, env) == (c, None)
  {}

  /** `q` asked for `m`. */
  predicate Asked(q: Msg, m: Msg) { q.mtype - q.mtype % 16 == m.mtype - 2 && q.dst == m.src && q.trf == m.trf }

  /** A response is dropped unless a request of that family waits for an answer of that sender and transaction.  The
      latest such request is settled by it. */
  lemma ResponseSettles(c: Clt, m: Msg, env: Env, k: nat)
    requires m.mtype % 16 == 2
    requires k <= |c.pending| && (forall j | 0 <= j < k :: !Asked(c.pending[j], m))
    requires k < |c.pending| ==> Asked(c.pending[k], m)
    ensures if k == |c.pending| then ProcessSrvMsg(c, m, env) == c
            else Receive(c, m, env) == Handle(c.(pending := c.pending[..k] + c.pending[k + 1..]), m, env)
  {
    forall j | 0 <= j < |c.pending|
      ensures Answered(c.pending[j], m) <==> Asked(c.pending[j], m)
    {
      AskedIs(c.pending[j], m);
    }
    hide Answered, Asked, Handle;
    assert FindPending(c.pending, m) == k;
  }

  lemma AskedIs(q: Msg, m: Msg)
    requires m.mtype % 16 == 2
    ensures Answered(q, m) <==> Asked(q, m)
  {}

  /** Anything but a response is handled whatever waits. */
  lemma OthersAreHandled(c: Clt, m: Msg, env: Env)
    requires m.mtype % 16 != 2
    ensures Receive(c, m, env) == Handle(c, m, env)
  {
    hide Handle;
  }

  // ----- commands that come to nothing -----

  /** Nothing is offered without being logged in, or of a file that is not there; nothing is accepted that has not been
      offered, and of an offer without a name nothing is asked for. */
  lemma CommandsRefused(c: Clt, dest: u64, name: seq<byte>, base: seq<byte>, rid: u64, oid: u64, trf: u64, env: Env)
    ensures !c.st.AuthOk? || name !in c.files ==> OfferFile(c, dest, name, base, oid, trf, env) == (c, None)
    ensures (forall t <- c.transfers :: !IsDownload(t, rid, oid)) ==> AcceptOffer(c, rid, oid, env) == (c, None)
    ensures (exists t <- c.transfers :: IsDownload(t, rid, oid))
            && (forall t <- c.transfers | IsDownload(t, rid, oid) :: t.part == None)
            ==> AcceptOffer(c, rid, oid, env).1.None? && AcceptOffer(c, rid, oid, env).0.files == c.files
  {
    hide OfferMsg, GetFile, Msg.Fits, Chunk;
    var k := FindTransfer(c.transfers, Download, rid, oid);
    assert forall t :: IsDownload(t, rid, oid) <==> Matches(t, Download, rid, oid);
    hide IsDownload, Matches;
    assert k < |c.transfers| ==> c.transfers[k] in c.transfers;
  }

  predicate IsDownload(t: Transfer, rid: u64, oid: u64) {
    t.kind == Download && t.rid == rid && t.oid == oid && t.tact > 0
  }
}
