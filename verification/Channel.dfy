/** The byte stream between two ends: the send queue with its partly sent head, and the receive buffer
    that is first sized for a header and then for the payload the header announces.  Server and client
    run the same two loops (srvmain.c `handle_io`, cltmain.c `handle_srvio`). */
module Channel {
  import opened Bytes
  import opened Message

  /** What the kernel answers: `Data` is what has arrived, `Room` how much the socket takes. */
  datatype ReadResult = Data(bytes: seq<byte>) | ReadAgain | ReadFailed
  datatype WriteResult = Room(n: nat) | WriteAgain | WriteFailed

  function Min(a: nat, b: nat): nat { if a < b then a else b }

  // ----- sending -----

  /** Bytes of a queue of messages. */
  function Flat(q: seq<Msg>): seq<byte> {
    if q == [] then [] else Marshal(q[0]) + Flat(q[1..])
  }

  /** A send queue: `off` bytes of the head have been written. */
  datatype Tx = Tx(q: seq<Msg>, off: nat)
  {
    predicate Ok() {
      if q == [] then off == 0 else off < MSG_HDR_SIZE + |q[0].pay|
    }

    function Unsent(): seq<byte>
      requires Ok()
    {
      if q == [] then [] else Marshal(q[0])[off..] + Flat(q[1..])
    }
  }

  function Enqueue(t: Tx, m: Msg): Tx { Tx(t.q + [m], t.off) }

  /** What a queue must hold for its receiver to live. */
  ghost predicate AllFit(q: seq<Msg>) { forall m <- q :: m.Fits() }

  /** `write` took `n` bytes of the head; a finished head leaves the queue. */
  function Written(t: Tx, n: nat): (r: Tx)
    requires t.Ok() && t.q != [] && 0 < n <= MSG_HDR_SIZE + |t.q[0].pay| - t.off
    ensures r.Ok()
  {
    if t.off + n == MSG_HDR_SIZE + |t.q[0].pay| then Tx(t.q[1..], 0) else Tx(t.q, t.off + n)
  }

  function WrittenBytes(t: Tx, n: nat): seq<byte>
    requires t.Ok() && t.q != [] && 0 < n <= MSG_HDR_SIZE + |t.q[0].pay| - t.off
  {
    Marshal(t.q[0])[t.off..t.off + n]
  }

  // ----- receiving -----

  /** A receive buffer of `size` bytes of which `got` have arrived. */
  datatype Rx = Rx(got: seq<byte>, size: nat)
  {
    predicate Ok() {
      && |got| < size
      && (size == MSG_HDR_SIZE ||
          (|got| >= MSG_HDR_SIZE && 0 < HdrGetPaylen(got) <= MSG_MAX_PAY_SIZE
           && size == MSG_HDR_SIZE + HdrGetPaylen(got)))
    }
  }

  const EMPTY_RX := Rx([], MSG_HDR_SIZE)

  predicate OkRbuf(rb: Option<Rx>) { rb.Some? ==> rb.value.Ok() }

  /** The buffer a read goes to: a new one if there is none. */
  function Prepared(rb: Option<Rx>): Rx {
    match rb case None => EMPTY_RX case Some(rx) => rx
  }

  datatype Received = Pending(rx: Rx) | Complete(m: Msg) | Died

  /** A read delivered `chunk`.  `Died` is the `die_if` on a payload beyond the limit, as soon as the header
      that announces it is complete. */
  function Feed(rx: Rx, chunk: seq<byte>): (r: Received)
    requires rx.Ok() && 0 < |chunk| <= rx.size - |rx.got|
    ensures r.Pending? ==> r.rx.Ok()
    ensures r.Complete? ==> r.m.Fits()
    ensures r.Died? <==> |rx.got + chunk| == MSG_HDR_SIZE && HdrGetPaylen(rx.got + chunk) > MSG_MAX_PAY_SIZE
  {
    var got := rx.got + chunk;
    if |got| < rx.size then
      if rx.size != MSG_HDR_SIZE then SamePaylen(rx.got, chunk); Pending(Rx(got, rx.size))
      else Pending(Rx(got, rx.size))
    else if |got| == MSG_HDR_SIZE then
      var paylen := HdrGetPaylen(got);
      if paylen == 0 then Complete(Unmarshal(got))
      else if paylen > MSG_MAX_PAY_SIZE then Died
      else Pending(Rx(got, MSG_HDR_SIZE + paylen))
    else Complete(Unmarshal(got))
  }

  lemma SamePaylen(a: seq<byte>, b: seq<byte>)
    requires |a| >= MSG_HDR_SIZE
    ensures HdrGetPaylen(a + b) == HdrGetPaylen(a)
  {
    assert (a + b)[2..4] == a[2..4];
  }

  lemma {:induction false} FlatConcat(a: seq<Msg>, b: seq<Msg>)
    ensures Flat(a + b) == Flat(a) + Flat(b)
  {
    if a == [] {
      assert a + b == b;
    } else {
      assert (a + b)[1..] == a[1..] + b;
      FlatConcat(a[1..], b);
    }
  }

  lemma FlatOne(m: Msg)
    ensures Flat([m]) == Marshal(m)
  {
    assert Flat([m]) == Marshal(m) + Flat([m][1..]);
  }

  lemma UnsentGrows(t: Tx, m: Msg)
    requires t.Ok()
    ensures Enqueue(t, m).Ok() && Enqueue(t, m).Unsent() == t.Unsent() + Marshal(m)
  {
    var q' := t.q + [m];
    FlatOne(m);
    if t.q == [] {
      assert q'[1..] == [];
      assert Marshal(m)[0..] == Marshal(m);
    } else {
      assert q'[1..] == t.q[1..] + [m];
      FlatConcat(t.q[1..], [m]);
      Assoc(Marshal(t.q[0])[t.off..], Flat(t.q[1..]), Marshal(m));
    }
  }

  lemma UnsentShrinks(t: Tx, n: nat)
    requires t.Ok() && t.q != [] && 0 < n <= MSG_HDR_SIZE + |t.q[0].pay| - t.off
    ensures t.Unsent() == WrittenBytes(t, n) + Written(t, n).Unsent()
  {
    var head, rest := Marshal(t.q[0]), Flat(t.q[1..]);
    assert head[t.off..] == head[t.off..t.off + n] + head[t.off + n..];
    Assoc(head[t.off..t.off + n], head[t.off + n..], rest);
    if t.off + n == |head| {
      UnsentFresh(t.q[1..]);
      assert head[|head|..] + rest == rest;
    }
  }

  lemma UnsentFresh(q: seq<Msg>)
    ensures Tx(q, 0).Ok() && Tx(q, 0).Unsent() == Flat(q)
  {
    if q != [] { assert Marshal(q[0])[0..] == Marshal(q[0]); }
  }

  /** The receive loop recognises the message its bytes come from. */
  lemma FeedKnows(rx: Rx, chunk: seq<byte>, m: Msg, rest: seq<byte>)
    requires rx.Ok() && 0 < |chunk| <= rx.size - |rx.got| && m.Fits()
    requires rx.got + chunk <= Marshal(m) + rest
    requires |rx.got + chunk| >= MSG_HDR_SIZE ==> HdrGetPaylen(rx.got + chunk) == |m.pay|
    ensures match Feed(rx, chunk)
            case Pending(rx') => rx'.got == rx.got + chunk
            case Complete(m') => m' == m && rx.got + chunk == Marshal(m)
            case Died => false
  {
    var got := rx.got + chunk;
    if rx.size != MSG_HDR_SIZE { SamePaylen(rx.got, chunk); }
    if |got| == MSG_HDR_SIZE + |m.pay| {
      assert got == Marshal(m);
      UnmarshalMarshal(m);
    }
  }
}
