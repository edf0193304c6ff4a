/** What time, the disk and the `remove` command do to the client's lists and files, one entry and one byte at a
    time. */
module ClientLists {
  import opened Bytes
  import opened Message
  import opened Channel
  import opened ClientSpec
  import opened ClientIo

  /** A write lands where it should: behind what was there a gap reads as zeros, and nothing else changes. */
  lemma WriteLands(was: seq<byte>, pos: nat, data: seq<byte>)
    requires data != []
    ensures var r := Overwritten(was, pos, data);
            && |r| == (if |was| < pos + |data| then pos + |data| else |was|)
            && forall i | 0 <= i < |r| ::
                 r[i] == if pos <= i < pos + |data| then data[i - pos] else if i < |was| then was[i] else 0
  {}

  /** Pending requests are forgotten one by one, each exactly when it is older than the timeout, and the rest stay in
      order. */
  lemma {:induction false} PendingKept(a: seq<Msg>, b: seq<Msg>, timeout: int, now: int)
    ensures KeptPending(a + b, timeout, now) == KeptPending(a, timeout, now) + KeptPending(b, timeout, now)
    ensures |a| == 1 ==> KeptPending(a, timeout, now) == if now - a[0].ts / 1_000_000_000 <= timeout then a else []
    decreases |b|
  {
    if |a| == 1 { assert a[..0] == [] && a == [a[0]]; }
    if b == [] {
      assert a + b == a;
    } else {
      var z := |b| - 1;
      assert (a + b)[..|a + b| - 1] == a + b[..z];
      PendingKept(a, b[..z], timeout, now);
    }
  }

  /** So are transfers without activity. */
  lemma {:induction false} TransfersKept(a: seq<Transfer>, b: seq<Transfer>, timeout: int, now: int)
    ensures Kept(a + b, timeout, now) == Kept(a, timeout, now) + Kept(b, timeout, now)
    ensures |a| == 1 ==> Kept(a, timeout, now) == if now - a[0].tact <= timeout then a else []
    decreases |b|
  {
    if |a| == 1 { assert a[..0] == [] && a == [a[0]]; }
    if b == [] {
      assert a + b == a;
    } else {
      var z := |b| - 1;
      assert (a + b)[..|a + b| - 1] == a + b[..z];
      TransfersKept(a, b[..z], timeout, now);
    }
  }

  /** What `remove` is told: any kind or one, any client or one, any offer or one. */
  predicate Meant(t: Transfer, mask: Mask) {
    && (mask.kind == None || mask.kind == Some(t.kind))
    && (mask.rid == None || mask.rid == Some(t.rid))
    && (mask.oid == None || mask.oid == Some(t.oid))
  }

  /** `remove` ends exactly the transfers that are meant: they match nothing any more and have no file open; the others
      are as they were. */
  lemma RemoveEnds(l: seq<Transfer>, mask: Mask)
    ensures var r := Removed(l, mask);
            && |r| == |l|
            && forall i | 0 <= i < |l| ::
                 if Meant(l[i], mask) then
                   r[i].tact == 0 && r[i].rid == 0 && r[i].oid == 0 && r[i].pos == None
                   && r[i].kind == l[i].kind && r[i].name == l[i].name && r[i].part == l[i].part
                 else r[i] == l[i]
  {}

  /** And it counts them. */
  lemma {:induction false} RemoveCounts(a: seq<Transfer>, b: seq<Transfer>, mask: Mask)
    ensures Covered(a + b, mask) == Covered(a, mask) + Covered(b, mask)
    ensures |a| == 1 ==> Covered(a, mask) == if Meant(a[0], mask) then 1 else 0
    decreases |b|
  {
    if |a| == 1 { assert a[..0] == []; }
    if b == [] {
      assert a + b == a;
    } else {
      var z := |b| - 1;
      assert (a + b)[..|a + b| - 1] == a + b[..z] && (a + b)[|a + b| - 1] == b[z];
      RemoveCounts(a, b[..z], mask);
    }
  }

  /** A lost connection: the client is not logged in any more, no file is open, and everything else waits. */
  lemma ConnectionLost(s: Conn, rd: ReadResult, env: Env)
    requires s.Ok() && (rd.ReadFailed? || (rd.Data? && rd.bytes == []))
    ensures var s' := ReadSrv(s, rd, env);
            && !s'.open && s'.clt.st.Invalid? && s'.off == s.off
            && |s'.clt.transfers| == |s.clt.transfers|
            && (forall i | 0 <= i < |s.clt.transfers| ::
                  s'.clt.transfers[i] == s.clt.transfers[i].(pos := None))
            && s'.clt == s.clt.(st := s'.clt.st, transfers := s'.clt.transfers)
  {}

  /** A file that is renamed takes the place of another, if there is one; it is not found under its old name any more,
      and all other files stay. */
  lemma RenameMoves(files: Files, from: seq<byte>, to: seq<byte>)
    ensures var f := Renamed(files, from, to);
            if from !in files || from == to then f == files
            else to in f && f[to] == files[from] && from !in f
                 && forall x :: x != from && x != to ==> (x in f <==> x in files) && (x in f ==> f[x] == files[x])
  {}

  /** Housekeeping sends a ping for the server while the client is logged in, and nothing else. */
  lemma UpkeepPings(c: Clt, respTimeout: int, offerTimeout: int, trf: u64, env: Env)
    ensures var (c', r) := AfterUpkeep(c, respTimeout, offerTimeout, trf, env);
            && (r.Some? <==> c.st.AuthOk?)
            && (r.Some? ==> r.value.mtype == 0x0200 && r.value.dst == 0 && r.value.trf == trf && r.value.pay == [])
            && c' == c.(pending := c'.pending, transfers := c'.transfers)
  {}
}
