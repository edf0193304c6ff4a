/** One direction of a connection: bytes that have been written and not yet taken over as messages. */
module Streams {
  import opened Bytes
  import opened Message
  import opened Channel

  /** The bytes of the head of the queue that have been written. */
  function Begun(t: Tx): seq<byte>
    requires t.Ok()
  {
    if t.q == [] then [] else Marshal(t.q[0])[..t.off]
  }

  /** What the receiver has got and what is on its way are the messages `us`, and the beginning of the next. */
  ghost predicate Stream(rb: Option<Rx>, bytes: seq<byte>, us: seq<Msg>, t: Tx) {
    && OkRbuf(rb) && t.Ok() && AllFit(us) && AllFit(t.q)
    && Prepared(rb).got + bytes == Flat(us) + Begun(t)
  }

  lemma Longer(got: seq<byte>, bytes: seq<byte>, us: seq<byte>, begun: seq<byte>, wb: seq<byte>)
    requires got + bytes == us + begun
    ensures got + (bytes + wb) == us + (begun + wb)
  {
    Assoc(got, bytes, wb);
    Assoc(us, begun, wb);
  }

  /** A write either begins more of the head or finishes it. */
  lemma BegunMore(t: Tx, n: nat)
    requires t.Ok() && t.q != [] && 0 < n <= MSG_HDR_SIZE + |t.q[0].pay| - t.off
    ensures var done := t.off + n == MSG_HDR_SIZE + |t.q[0].pay|;
            Begun(t) + WrittenBytes(t, n) == if done then Marshal(t.q[0]) else Begun(Written(t, n))
    ensures t.off + n == MSG_HDR_SIZE + |t.q[0].pay| ==> Begun(Written(t, n)) == []
  {
    var m := t.q[0];
    assert Marshal(m)[..t.off] + Marshal(m)[t.off..t.off + n] == Marshal(m)[..t.off + n];
    if t.off + n == |Marshal(m)| { assert Marshal(m)[..t.off + n] == Marshal(m); }
    hide Marshal;
  }

  lemma WrittenFits(t: Tx, n: nat)
    requires t.Ok() && t.q != [] && 0 < n <= MSG_HDR_SIZE + |t.q[0].pay| - t.off && AllFit(t.q)
    ensures AllFit(Written(t, n).q) && t.q[0].Fits()
  {
    assert t.q[0] in t.q;
    assert forall x <- Written(t, n).q :: x in t.q;
  }

  lemma FlatMore(us: seq<Msg>, m: Msg)
    ensures Flat(us + [m]) + [] == Flat(us) + Marshal(m)
  {
    FlatConcat(us, [m]);
    FlatOne(m);
  }

  /** So a stream of whole messages stays one under a write of any size. */
  lemma StreamWrite(rb: Option<Rx>, bytes: seq<byte>, us: seq<Msg>, t: Tx, n: nat)
    requires Stream(rb, bytes, us, t) && t.q != [] && 0 < n <= MSG_HDR_SIZE + |t.q[0].pay| - t.off
    ensures var us' := if t.off + n == MSG_HDR_SIZE + |t.q[0].pay| then us + [t.q[0]] else us;
            Stream(rb, bytes + WrittenBytes(t, n), us', Written(t, n))
  {
    BegunMore(t, n);
    WrittenFits(t, n);
    FlatMore(us, t.q[0]);
    Longer(Prepared(rb).got, bytes, Flat(us), Begun(t), WrittenBytes(t, n));
    hide Begun, WrittenBytes, Flat, Marshal, Written, Prepared, Msg.Fits;
  }

  /** A queue may grow behind its head. */
  lemma StreamEnqueue(rb: Option<Rx>, bytes: seq<byte>, us: seq<Msg>, t: Tx, t': Tx)
    requires Stream(rb, bytes, us, t) && t'.off == t.off && t.q <= t'.q && AllFit(t'.q)
    ensures Stream(rb, bytes, us, t')
  {
    if t.q == [] { assert Begun(t') == []; } else { assert t'.q[0] == t.q[0]; }
  }

  lemma PrefixPaylen(got: seq<byte>, m: Msg, rest: seq<byte>)
    requires got <= Marshal(m) + rest && |got| >= MSG_HDR_SIZE && m.Fits()
    ensures HdrGetPaylen(got) == |m.pay|
  {
    UnmarshalMarshal(m);
    assert got[2..4] == (Marshal(m) + rest)[2..4] == Marshal(m)[2..4];
  }

  /** Reading takes over the next message when its last byte has arrived, and never ends the receiver. */
  lemma StreamRead(rb: Option<Rx>, chunk: seq<byte>, rest: seq<byte>, us: seq<Msg>, t: Tx)
    requires Stream(rb, chunk + rest, us, t)
    requires 0 < |chunk| <= Prepared(rb).size - |Prepared(rb).got|
    ensures match Feed(Prepared(rb), chunk)
            case Pending(rx) => Stream(Some(rx), rest, us, t)
            case Complete(m) => us != [] && m == us[0] && Stream(None, rest, us[1..], t)
            case Died => false
  {
    var rx := Prepared(rb);
    Assoc(rx.got, chunk, rest);
    if us == [] {
      ReadBegun(rx, chunk, rest, t);
    } else {
      ReadNext(rx, chunk, rest, us, t);
      assert forall x <- us[1..] :: x in us;
    }
    hide Feed, Flat, Begun, Msg.Fits;
  }

  /** Of a message that is still being written, a read never gets the end. */
  lemma ReadBegun(rx: Rx, chunk: seq<byte>, rest: seq<byte>, t: Tx)
    requires rx.Ok() && 0 < |chunk| <= rx.size - |rx.got| && t.Ok() && AllFit(t.q)
    requires (rx.got + chunk) + rest == Flat([]) + Begun(t)
    ensures match Feed(rx, chunk)
            case Pending(rx') => rx'.got == rx.got + chunk
            case _ => false
  {
    var got := rx.got + chunk;
    OnlyBegun(got, rest, t);
    assert t.q[0] in t.q;
    if |got| >= MSG_HDR_SIZE { PrefixPaylen(got, t.q[0], []); }
    hide Begun, Flat;
    FeedKnows(rx, chunk, t.q[0], []);
    hide Feed, HdrGetPaylen, Marshal;
  }

  lemma ReadNext(rx: Rx, chunk: seq<byte>, rest: seq<byte>, us: seq<Msg>, t: Tx)
    requires rx.Ok() && 0 < |chunk| <= rx.size - |rx.got| && us != [] && AllFit(us) && t.Ok()
    requires (rx.got + chunk) + rest == Flat(us) + Begun(t)
    ensures match Feed(rx, chunk)
            case Pending(rx') => rx'.got == rx.got + chunk
            case Complete(m) => m == us[0] && rest == Flat(us[1..]) + Begun(t)
            case Died => false
  {
    var got := rx.got + chunk;
    assert us[0] in us;
    var later := Flat(us[1..]) + Begun(t);
    Assoc(Marshal(us[0]), Flat(us[1..]), Begun(t));
    assert got + rest == Marshal(us[0]) + later;
    hide Flat, Begun;
    PrefixOf(got, rest, Marshal(us[0]) + later);
    if |got| >= MSG_HDR_SIZE { PrefixPaylen(got, us[0], later); }
    FeedKnows(rx, chunk, us[0], later);
    if got == Marshal(us[0]) { Behind(got, rest, later); }
    hide Feed, HdrGetPaylen, Marshal;
  }

  lemma OnlyBegun(got: seq<byte>, rest: seq<byte>, t: Tx)
    requires t.Ok() && got + rest == Flat([]) + Begun(t) && got != []
    ensures t.q != [] && got <= Marshal(t.q[0]) + [] && |got| < |Marshal(t.q[0])|
  {
    assert Flat([]) + Begun(t) == Begun(t);
    assert Marshal(t.q[0])[..t.off] == Begun(t);
    assert got == (got + rest)[..|got|];
    assert Marshal(t.q[0]) + [] == Marshal(t.q[0]);
    assert got == Marshal(t.q[0])[..|got|];
  }

  lemma Rejoin(a: seq<byte>, b: seq<byte>)
    requires a <= b
    ensures a + b[|a|..] == b
  {}

  lemma PrefixOf(a: seq<byte>, b: seq<byte>, c: seq<byte>)
    requires a + b == c
    ensures a <= c
  {}

  lemma Behind(a: seq<byte>, b: seq<byte>, c: seq<byte>)
    requires a + b == a + c
    ensures b == c
  {
    assert (a + b)[|a|..] == b && (a + c)[|a|..] == c;
  }
}
