/** The byte stream as a transition system: what arrives, over every interleaving of enqueues, partial
    writes and partial reads. */
module ChannelRuns {
  import opened Bytes
  import opened Message
  import opened Channel

  /** Everything enqueued so far, the queue, all bytes ever written, how many of them were read, the
      receive buffer and what it has delivered. */
  datatype State = State(enq: seq<Msg>, tx: Tx, out: seq<byte>, inn: nat, rb: Option<Rx>, del: seq<Msg>, dead: bool)

  datatype Step = Put(m: Msg) | Write(n: nat) | Read(n: nat)

  const INIT := State([], Tx([], 0), [], 0, None, [], false)

  /** Partial writes and reads of any size the sockets may return. */
  predicate Enabled(s: State, e: Step) {
    !s.dead &&
    match e
    case Put(m) => m.Fits()
    case Write(n) => s.tx.Ok() && s.tx.q != [] && 0 < n <= MSG_HDR_SIZE + |s.tx.q[0].pay| - s.tx.off
    case Read(n) => OkRbuf(s.rb) && s.inn + n <= |s.out| && 0 < n <= Prepared(s.rb).size - |Prepared(s.rb).got|
  }

  function Next(s: State, e: Step): State
    requires Enabled(s, e)
  {
    match e
    case Put(m) => s.(enq := s.enq + [m], tx := Enqueue(s.tx, m))
    case Write(n) => s.(tx := Written(s.tx, n), out := s.out + WrittenBytes(s.tx, n))
    case Read(n) => AfterRead(s, n, Feed(Prepared(s.rb), s.out[s.inn..s.inn + n]))
  }

  function AfterRead(s: State, n: nat, r: Received): State {
    match r
    case Pending(rx) => s.(inn := s.inn + n, rb := Some(rx))
    case Complete(m) => s.(inn := s.inn + n, rb := None, del := s.del + [m])
    case Died => s.(inn := s.inn + n, dead := true)
  }

  ghost predicate Inv(s: State) {
    && !s.dead && s.tx.Ok() && OkRbuf(s.rb)
    && AllFit(s.enq)
    && s.out + s.tx.Unsent() == Flat(s.enq)
    && s.inn <= |s.out|
    && s.out[..s.inn] == Flat(s.del) + Prepared(s.rb).got
    && s.del <= s.enq
  }

  lemma PutKeeps(s: State, m: Msg)
    requires Inv(s) && m.Fits()
    ensures Inv(Next(s, Put(m)))
  {
    FlatConcat(s.enq, [m]);
    FlatOne(m);
    UnsentGrows(s.tx, m);
    Assoc(s.out, s.tx.Unsent(), Marshal(m));
  }

  lemma WriteKeeps(s: State, n: nat)
    requires Inv(s) && Enabled(s, Write(n))
    ensures Inv(Next(s, Write(n)))
  {
    UnsentShrinks(s.tx, n);
    var w := WrittenBytes(s.tx, n);
    Assoc(s.out, w, Written(s.tx, n).Unsent());
    assert (s.out + w)[..s.inn] == s.out[..s.inn];
  }

  /** What has been read beyond the delivered messages begins with the next message. */
  lemma NextMessage(s: State, got: seq<byte>)
    requires Inv(s)
    requires Flat(s.del) + got <= Flat(s.enq) && got != []
    ensures |s.del| < |s.enq|
    ensures got <= Marshal(s.enq[|s.del|]) + Flat(s.enq[|s.del| + 1..])
    ensures |got| >= MSG_HDR_SIZE ==> HdrGetPaylen(got) == |s.enq[|s.del|].pay|
  {
    var k := |s.del|;
    assert s.enq == s.del + s.enq[k..];
    FlatConcat(s.del, s.enq[k..]);
    SuffixPrefix(Flat(s.del), got, Flat(s.enq[k..]));
    assert s.enq[k..] != [];
    assert s.enq[k..][1..] == s.enq[k + 1..];
    var m := s.enq[k];
    UnmarshalMarshal(m);
    if |got| >= MSG_HDR_SIZE {
      assert got[2..4] == (Marshal(m) + Flat(s.enq[k + 1..]))[2..4] == Marshal(m)[2..4];
    }
  }

  lemma SuffixPrefix(a: seq<byte>, b: seq<byte>, c: seq<byte>)
    requires a + b <= a + c
    ensures b <= c
  {
    assert (a + c)[|a|..] == c;
    assert (a + b)[|a|..] == b;
    assert forall i | 0 <= i < |b| :: b[i] == (a + b)[|a| + i] == (a + c)[|a| + i] == c[i];
  }

  lemma ReadExtends(s: State, n: nat)
    requires Inv(s) && Enabled(s, Read(n))
    ensures var got := Prepared(s.rb).got + s.out[s.inn..s.inn + n];
            s.out[..s.inn + n] == Flat(s.del) + got && Flat(s.del) + got <= Flat(s.enq)
  {
    var rx, chunk := Prepared(s.rb), s.out[s.inn..s.inn + n];
    assert s.out[..s.inn + n] == s.out[..s.inn] + chunk;
    Assoc(Flat(s.del), rx.got, chunk);
    assert s.out[..s.inn + n] <= s.out <= Flat(s.enq);
  }

  /** A read either extends the buffer or completes exactly the next enqueued message. */
  lemma ReadOutcome(s: State, n: nat)
    requires Inv(s) && Enabled(s, Read(n))
    ensures var rx, chunk := Prepared(s.rb), s.out[s.inn..s.inn + n];
            && s.out[..s.inn + n] == Flat(s.del) + (rx.got + chunk)
            && match Feed(rx, chunk)
               case Pending(rx') => rx'.got == rx.got + chunk
               case Complete(m) => |s.del| < |s.enq| && m == s.enq[|s.del|] && Marshal(m) == rx.got + chunk
               case Died => false
  {
    var rx, chunk := Prepared(s.rb), s.out[s.inn..s.inn + n];
    ReadExtends(s, n);
    NextMessage(s, rx.got + chunk);
    FeedKnows(rx, chunk, s.enq[|s.del|], Flat(s.enq[|s.del| + 1..]));
  }

  lemma AfterReadKeeps(s: State, n: nat, got: seq<byte>, r: Received)
    requires Inv(s) && s.inn + n <= |s.out| && s.out[..s.inn + n] == Flat(s.del) + got
    requires match r
             case Pending(rx) => rx.Ok() && rx.got == got
             case Complete(m) => |s.del| < |s.enq| && m == s.enq[|s.del|] && Marshal(m) == got
             case Died => false
    ensures Inv(AfterRead(s, n, r))
  {
    match r
    case Pending(rx) =>
    case Complete(m) =>
      FlatConcat(s.del, [m]);
      FlatOne(m);
      assert Flat(s.del + [m]) + [] == Flat(s.del) + got;
  }

  lemma NextRead(s: State, n: nat)
    requires Enabled(s, Read(n))
    ensures Next(s, Read(n)) == AfterRead(s, n, Feed(Prepared(s.rb), s.out[s.inn..s.inn + n]))
  {}

  lemma ReadKeeps(s: State, n: nat)
    requires Inv(s) && Enabled(s, Read(n))
    ensures Inv(Next(s, Read(n)))
  {
    ReadOutcome(s, n);
    var chunk := s.out[s.inn..s.inn + n];
    var r := Feed(Prepared(s.rb), chunk);
    AfterReadKeeps(s, n, Prepared(s.rb).got + chunk, r);
    NextRead(s, n);
  }

  lemma StepKeeps(s: State, e: Step)
    requires Inv(s) && Enabled(s, e)
    ensures Inv(Next(s, e))
  {
    match e
    case Put(m) => PutKeeps(s, m);
    case Write(n) => WriteKeeps(s, n);
    case Read(n) => ReadKeeps(s, n);
  }

  /** A run: every step was possible where it was taken. */
  ghost predicate Run(s: State, steps: seq<Step>, t: State)
    decreases |steps|
  {
    if steps == [] then s == t
    else Enabled(s, steps[0]) && Run(Next(s, steps[0]), steps[1..], t)
  }

  lemma {:induction false} RunKeeps(s: State, steps: seq<Step>, t: State)
    requires Inv(s) && Run(s, steps, t)
    ensures Inv(t)
    decreases |steps|
  {
    if steps != [] {
      StepKeeps(s, steps[0]);
      RunKeeps(Next(s, steps[0]), steps[1..], t);
    }
  }

  /** Reliable message channel.  In every interleaving of enqueues, partial writes and partial reads, the
      bytes written and still queued are the enqueued messages, the receiver delivers a prefix of them in
      order, it never dies, and once everything written has been read at a message boundary nothing is
      missing. */
  lemma ReliableChannel(steps: seq<Step>, t: State)
    requires Run(INIT, steps, t)
    ensures !t.dead && t.tx.Ok() && t.out + t.tx.Unsent() == Flat(t.enq)
    ensures t.del <= t.enq
    ensures t.tx.q == [] && t.inn == |t.out| ==> t.del == t.enq && Prepared(t.rb).got == []
  {
    RunKeeps(INIT, steps, t);
    if t.tx.q == [] && t.inn == |t.out| {
      AllDelivered(t);
    }
  }

  lemma Remaining(t: State)
    requires t.del < t.enq
    ensures |Flat(t.enq)| >= |Flat(t.del)| + |Marshal(t.enq[|t.del|])|
  {
    var k := |t.del|;
    assert t.enq == t.del + t.enq[k..] && t.enq[k..][1..] == t.enq[k + 1..];
    FlatConcat(t.del, t.enq[k..]);
  }

  lemma AllDelivered(t: State)
    requires Inv(t) && t.tx.q == [] && t.inn == |t.out|
    ensures t.del == t.enq && Prepared(t.rb).got == []
  {
    var got := Prepared(t.rb).got;
    assert t.out[..t.inn] == t.out == Flat(t.enq);
    if t.del < t.enq { Remaining(t); }
    if got != [] { NextMessage(t, got); }
  }
}
