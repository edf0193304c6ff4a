/** How a download comes about, and what upkeep leaves of it. */
module TransferOffers {
  import opened Bytes
  import opened Message
  import opened ClientSpec
  import opened ClientIo
  import opened ClientLimits
  import opened TransferFacts
  import opened Transfers
  import opened TransferOther

  // ----- from the offer to the entry that can be accepted -----

  lemma OfferAttrs(dest: u64, trf: u64, ts: u64, oid: u64, base: seq<byte>, size: u64)
    requires |base| <= MSG_MAX_PAY_SIZE - 41
    ensures Attrs(OfferMsg(dest, trf, ts, oid, base, size))
         == [Attr(OFFERID, Be(oid, 8)), Attr(FILENAME, base + [0]), Attr(SIZE, Be(size, 8))]
  {
    hide Tlv, EncAttr, Be;
    var a, b, c := Attr(OFFERID, Be(oid, 8)), Attr(FILENAME, base + [0]), Attr(SIZE, Be(size, 8));
    assert ([] + EncAttr(a)) + EncAttr(b) + EncAttr(c) == EncAttr(a) + (EncAttr(b) + (EncAttr(c) + []));
    TlvOfEncAttr(a, EncAttr(b) + (EncAttr(c) + []));
    TlvOfEncAttr(b, EncAttr(c) + []);
    TlvOfEncAttr(c, []);
    TlvEmpty();
  }

  lemma ReadOfferOf(d: Transfer, oid: u64, base: seq<byte>, size: u64)
    requires 0 !in base
    ensures ReadOffer(d, [Attr(OFFERID, Be(oid, 8)), Attr(FILENAME, base + [0]), Attr(SIZE, Be(size, 8))])
         == d.(oid := oid, name := Some(base), part := Some(base + PART), size := size)
  {
    U64OfBe(oid);
    U64OfBe(size);
    hide Be, U64Of, CStr;
    CStrTerminated(base, []);
    assert base + [0] + [] == base + [0];
    var l := [Attr(OFFERID, Be(oid, 8)), Attr(FILENAME, base + [0]), Attr(SIZE, Be(size, 8))];
    assert l[1..][1..] == [l[2]] && l[1..][0] == l[1] && [l[2]][1..] == [];
    var d1 := d.(oid := oid);
    var d2 := d1.(name := Some(base), part := Some(base + PART));
    assert ReadOffer(d, l) == ReadOffer(d1, l[1..]);
    assert ReadOffer(d1, l[1..]) == ReadOffer(d2, [l[2]]);
    assert ReadOffer(d2, [l[2]]) == ReadOffer(d2.(size := size), []);
  }

  /** Once an offer has arrived, the offering client stands ready to serve the file, and the other has an
      entry under the same ids with the file's size, which can be accepted if no file is in the way. */
  lemma OfferArrives(p: u64, c: Clt, k: Key, name: seq<byte>, base: seq<byte>, trf: u64, env: Env, d: Clt, env': Env)
    requires k.p == p && c.st.AuthOk? && d.st.AuthOk? && env.Ok() && env'.Ok()
    requires name in c.files && 0 < |c.files[name]| <= MAX_OFF
    requires base != [] && 0 !in base && |base| <= MSG_MAX_PAY_SIZE - 41
    ensures var (c', req) := OfferFile(c, k.q, name, base, k.oid, trf, env);
            && req.Some?
            && var src := c.files[name];
               var (d', res) := OnOffer(d, req.value.(src := p), env');
               && Offers(c', k.q, k.oid, src) && FindTransfer(d'.transfers, Download, p, k.oid) < |d'.transfers|
               && Entry(d', p, k.oid)
                  == Transfer(Download, p, k.oid, Some(base), Some(base + PART), |src|, 0, None, env'.now)
               && (Acceptable(d', k, src) <==> base + PART in d.files ==> d.files[base + PART] < src)
               && res.Some? && res.value.mtype == OFFER_RES && res.value.dst == p && res.value.trf == trf
  {
    hide Attrs, AddAttr, OfferMsg, EncAttr, Be;
    var src := c.files[name];
    OfferMsgFits(k.q, trf, env.ts, k.oid, base, |src|);
    var (c', req) := OfferFile(c, k.q, name, base, k.oid, trf, env);
    OfferAttrs(k.q, trf, env.ts, k.oid, base, |src|);
    ReadOfferOf(Transfer(Download, p, 0, None, None, 0, 0, None, env'.now), k.oid, base, |src|);
    OfferFields(k.q, trf, env.ts, k.oid, base, |src|);
    var m := req.value.(src := p);
    assert Attrs(m) == Attrs(req.value) by { SameAttrs(req.value, p); }
    var (d', res) := OnOffer(d, m, env');
    assert d'.transfers[0] == Transfer(Download, p, k.oid, Some(base), Some(base + PART), |src|, 0, None, env'.now);
    assert FindTransfer(d'.transfers, Download, p, k.oid) == 0;
    assert FindTransfer(c'.transfers, Offer, k.q, k.oid) == 0;
    OfferReply(m.src, m.trf, env'.ts, k.oid);
  }

  lemma SameAttrs(m: Msg, p: u64)
    ensures Attrs(m.(src := p)) == Attrs(m)
  {}

  lemma OfferFields(dest: u64, trf: u64, ts: u64, oid: u64, base: seq<byte>, size: u64)
    ensures var m := OfferMsg(dest, trf, ts, oid, base, size);
            m.mtype == OFFER_REQ && m.dst == dest && m.trf == trf
  {}

  lemma OfferReply(dest: u64, trf: u64, ts: u64, oid: u64)
    ensures var m := AddAttr(AddAttr(Compose(OFFER_RES, dest, trf, ts), OFFERID, Be(oid, 8)), OK, []);
            m.mtype == OFFER_RES && m.dst == dest && m.trf == trf
  {}

  // ----- upkeep -----

  function Found(l: seq<Transfer>, kind: Kind, rid: u64, oid: u64): Option<Transfer> {
    var k := FindTransfer(l, kind, rid, oid);
    if k < |l| then Some(l[k]) else None
  }

  lemma {:induction false} FoundSnoc(l: seq<Transfer>, t: Transfer, kind: Kind, rid: u64, oid: u64)
    ensures Found(l + [t], kind, rid, oid)
         == if Found(l, kind, rid, oid).Some? then Found(l, kind, rid, oid)
            else if Matches(t, kind, rid, oid) then Some(t)
            else None
  {
    if l == [] {
      assert l + [t] == [t] && [t][1..] == [];
    } else {
      assert (l + [t])[1..] == l[1..] + [t];
      FoundSnoc(l[1..], t, kind, rid, oid);
    }
  }

  /** Clearing away old entries does not change which entry a key finds, unless that entry itself is old. */
  lemma {:induction false} FoundKept(l: seq<Transfer>, timeout: int, now: int, kind: Kind, rid: u64, oid: u64)
    requires Found(l, kind, rid, oid).Some? ==> Found(l, kind, rid, oid).value.tact + timeout >= now
    ensures Found(Kept(l, timeout, now), kind, rid, oid) == Found(l, kind, rid, oid)
  {
    hide FindTransfer, Matches;
    if l != [] {
      var front, t := l[..|l| - 1], l[|l| - 1];
      assert l == front + [t];
      FoundSnoc(front, t, kind, rid, oid);
      FoundKept(front, timeout, now, kind, rid, oid);
      FoundSnoc(Kept(front, timeout, now), t, kind, rid, oid);
    }
  }

  lemma KeptLeaves(c: Clt, timeout: int, now: int, kind: Kind, rid: u64, oid: u64)
    requires Found(c.transfers, kind, rid, oid).Some? ==> Found(c.transfers, kind, rid, oid).value.tact + timeout >= now
    ensures var c' := c.(transfers := Kept(c.transfers, timeout, now));
            SameEntry(c, c', kind, rid, oid) && OfferedNames(c', rid, oid) <= OfferedNames(c, rid, oid)
  {
    FoundKept(c.transfers, timeout, now, kind, rid, oid);
    hide FindTransfer;
  }

  /** Upkeep, with its PING to the server, disturbs no download as long as neither its entries nor its requests
      have timed out. */
  lemma UpkeepIsChat(s: Net, q: u64, respTimeout: int, offerTimeout: int, trf: u64, env: Env)
    requires q in s.peers && Tidy(s)
    requires forall k <- s.running ::
               && (k.q == q ==> var f := Found(s.peers[q].transfers, Download, k.p, k.oid);
                              f.Some? ==> f.value.tact + offerTimeout >= env.now)
               && (k.p == q ==> var f := Found(s.peers[q].transfers, Offer, k.q, k.oid);
                              f.Some? ==> f.value.tact + offerTimeout >= env.now)
    requires forall m <- s.peers[q].pending | m.mtype == GETFILE_REQ :: m.ts / NS_PER_S + respTimeout >= env.now
    ensures var (c', ping) := AfterUpkeep(s.peers[q], respTimeout, offerTimeout, trf, env);
            && (s.peers[q].st.AuthOk? <==> ping.Some?) && Chats(s, q, Queued(c', ping))
  {
    hide FindTransfer, Kept, SameEntry, OfferedNames, Found, Count;
    var c := s.peers[q];
    var (c1, ping) := AfterUpkeep(c, respTimeout, offerTimeout, trf, env);
    var c' := Queued(c1, ping);
    forall p, t
      ensures Pending(c', p, t) == Pending(c, p, t)
    {
      KeptCount(c.pending, respTimeout, env.now, Sel(GETFILE_REQ, None, p, None, Some(t)));
    }
    forall k <- s.running
      ensures k.q == q ==> SameEntry(c, c', Download, k.p, k.oid)
      ensures k.p == q
              ==> SameEntry(c, c', Offer, k.q, k.oid) && OfferedNames(c', k.q, k.oid) <= OfferedNames(c, k.q, k.oid)
    {
      if k.q == q {
        KeptLeaves(c, offerTimeout, env.now, Download, k.p, k.oid);
        SameTransfers(c, c', offerTimeout, env.now, Download, k.p, k.oid);
      }
      if k.p == q {
        KeptLeaves(c, offerTimeout, env.now, Offer, k.q, k.oid);
        SameTransfers(c, c', offerTimeout, env.now, Offer, k.q, k.oid);
      }
    }
  }

  lemma SameTransfers(c: Clt, c': Clt, timeout: int, now: int, kind: Kind, rid: u64, oid: u64)
    requires c'.transfers == Kept(c.transfers, timeout, now)
    ensures var d := c.(transfers := Kept(c.transfers, timeout, now));
            && (SameEntry(c, c', kind, rid, oid) <==> SameEntry(c, d, kind, rid, oid))
            && OfferedNames(c', rid, oid) == OfferedNames(d, rid, oid)
  {
    hide FindTransfer, Kept;
  }

  lemma {:induction false} KeptCount(l: seq<Msg>, timeout: int, now: int, x: Sel)
    requires x.mtype == GETFILE_REQ && forall m <- l | m.mtype == GETFILE_REQ :: m.ts / NS_PER_S + timeout >= now
    ensures Count(KeptPending(l, timeout, now), x) == Count(l, x)
  {
    if l != [] {
      var front, m := l[..|l| - 1], l[|l| - 1];
      assert l == front + [m];
      KeptCount(front, timeout, now, x);
      hide OidOf;
      if m.ts / NS_PER_S + timeout >= now { CountAppend(KeptPending(front, timeout, now), m, x); }
    }
  }

  // ----- commands -----

  /** A new offer in front hides no download, and no offer of another key. */
  lemma NewOffer(c: Clt, c': Clt, o: Transfer, kind: Kind, rid: u64, oid: u64)
    requires c'.transfers == [o] + c.transfers && !Matches(o, kind, rid, oid)
    ensures SameEntry(c, c', kind, rid, oid)
    ensures kind == Offer ==> OfferedNames(c', rid, oid) <= OfferedNames(c, rid, oid)
  {
    FindCons(o, c.transfers, kind, rid, oid);
    hide FindTransfer;
    assert forall x <- c'.transfers :: x == o || x in c.transfers;
  }

  /** The `offer` command disturbs no download, as long as no download of the same offer id from this client is
      running at the addressed one. */
  lemma OfferIsChat(s: Net, q: u64, dest: u64, name: seq<byte>, base: seq<byte>, oid: u64, trf: u64, env: Env)
    requires q in s.peers && Tidy(s) && |base| <= MSG_MAX_PAY_SIZE - 41 && Key(dest, q, oid) !in s.running
    ensures var (c, req) := OfferFile(s.peers[q], dest, name, base, oid, trf, env);
            Chats(s, q, Queued(c, req))
  {
    hide FindTransfer, SameEntry, OfferedNames, Pending;
    var c := s.peers[q];
    var (c1, req) := OfferFile(c, dest, name, base, oid, trf, env);
    var c' := Queued(c1, req);
    CommandsFit(c, 0, 0, dest, name, base, trf, env);
    OfferKeeps(c, dest, name, base, oid, trf, env);
    if c1.transfers == c.transfers {
      SameChats(s, q);
    } else {
      forall k <- s.running
        ensures k.q == q ==> SameEntry(c, c', Download, k.p, k.oid)
        ensures k.p == q
                ==> SameEntry(c, c', Offer, k.q, k.oid) && OfferedNames(c', k.q, k.oid) <= OfferedNames(c, k.q, k.oid)
      {
        var o := c1.transfers[0];
        if k.q == q { NewOffer(c, c', o, Download, k.p, k.oid); }
        if k.p == q { NewOffer(c, c', o, Offer, k.q, k.oid); }
      }
      hide OfferFile;
      assert forall p, t :: Pending(c', p, t) == Pending(c, p, t) by { SamePending(c, c'); }
    }
  }

  lemma SamePending(c: Clt, c': Clt)
    requires c'.pending == c.pending
    ensures forall p, t :: Pending(c', p, t) == Pending(c, p, t)
  {
    hide Count;
  }

  /** What `offer` leaves alone, and the entry and the request it makes. */
  lemma OfferKeeps(c: Clt, dest: u64, name: seq<byte>, base: seq<byte>, oid: u64, trf: u64, env: Env)
    requires |base| <= MSG_MAX_PAY_SIZE - 41
    ensures var (c', req) := OfferFile(c, dest, name, base, oid, trf, env);
            && c'.st == c.st && c'.files == c.files && c'.queue == c.queue && c'.pending == c.pending
            && c'.dead == c.dead
            && (c'.transfers == c.transfers ==> c' == c && req == None)
            && (c'.transfers != c.transfers ==>
                  && |c'.transfers| == |c.transfers| + 1 && c'.transfers == [c'.transfers[0]] + c.transfers
                  && c'.transfers[0].kind == Offer && c'.transfers[0].rid == dest && c'.transfers[0].oid == oid
                  && req.Some? && req.value.mtype == OFFER_REQ)
  {
    hide Be;
    if c.st.AuthOk? && name in c.files && |c.files[name]| <= MAX_OFF {
      OfferMsgFits(dest, trf, env.ts, oid, base, |c.files[name]|);
    }
    hide Msg.Fits, EncAttr;
  }

  lemma {:induction false} FoundRemoved(l: seq<Transfer>, mask: Mask, kind: Kind, rid: u64, oid: u64)
    requires var k := FindTransfer(l, kind, rid, oid); k < |l| ==> !mask.Covers(l[k])
    ensures FindTransfer(Removed(l, mask), kind, rid, oid) == FindTransfer(l, kind, rid, oid)
  {
    if l != [] && !Matches(l[0], kind, rid, oid) {
      FoundRemoved(l[1..], mask, kind, rid, oid);
      assert Removed(l, mask)[1..] == Removed(l[1..], mask);
    }
  }

  /** The `remove` command disturbs no download as long as it covers no entry that one uses. */
  lemma RemoveIsChat(s: Net, q: u64, mask: Mask)
    requires q in s.peers && Tidy(s)
    requires forall k <- s.running ::
               && (k.q == q ==> var f := Found(s.peers[q].transfers, Download, k.p, k.oid);
                              f.Some? ==> !mask.Covers(f.value))
               && (k.p == q ==> var f := Found(s.peers[q].transfers, Offer, k.q, k.oid);
                              f.Some? ==> !mask.Covers(f.value))
    ensures Chats(s, q, s.peers[q].(transfers := Removed(s.peers[q].transfers, mask)))
  {
    hide FindTransfer, Pending;
    var c := s.peers[q];
    var c' := c.(transfers := Removed(c.transfers, mask));
    SamePending(c, c');
    forall k <- s.running
      ensures k.q == q ==> SameEntry(c, c', Download, k.p, k.oid)
      ensures k.p == q
              ==> SameEntry(c, c', Offer, k.q, k.oid) && OfferedNames(c', k.q, k.oid) <= OfferedNames(c, k.q, k.oid)
    {
      if k.q == q { RemovedLeaves(c, mask, Download, k.p, k.oid); }
      if k.p == q { RemovedLeaves(c, mask, Offer, k.q, k.oid); }
    }
  }

  lemma RemovedLeaves(c: Clt, mask: Mask, kind: Kind, rid: u64, oid: u64)
    requires var f := Found(c.transfers, kind, rid, oid); f.Some? ==> !mask.Covers(f.value)
    ensures var c' := c.(transfers := Removed(c.transfers, mask));
            SameEntry(c, c', kind, rid, oid) && OfferedNames(c', rid, oid) <= OfferedNames(c, rid, oid)
  {
    FoundRemoved(c.transfers, mask, kind, rid, oid);
    hide FindTransfer;
    var l := Removed(c.transfers, mask);
    forall t <- l | Matches(t, Offer, rid, oid)
      ensures t in c.transfers
    {
      var i :| 0 <= i < |l| && l[i] == t;
    }
  }
}
