/** Every message that the server queues fits the wire format, so that no receiver ends over it. */
module ServerQueues {
  import opened Bytes
  import opened Message
  import opened Channel
  import opened UserFile
  import opened UserDb
  import opened ServerSpec
  import opened ServerInv
  import opened ServerIds
  import opened ServerRuns

  ghost predicate QueuesFit(c: seq<Client>) { forall x <- c | x.Open() :: AllFit(x.tx.q) }

  // ----- replies -----

  lemma RepliesFit(m: Msg, env: Env)
    requires env.Ok()
    ensures ServerSpec.Ok(m, env).Fits() && AddAttr(Response(m, env.ts), OK, []).Fits()
    ensures AddAttr(Response(m, env.ts), CHALLENGE, PLAINTEXT + [0]).Fits()
    ensures forall ec :: Err(m, ec, env).Fits()
  {
    hide Be;
  }

  ghost predicate ReplyFits(reply: Option<Msg>) { reply.Some? ==> reply.value.Fits() }

  lemma ServerMsgFits(s: Srv, i: nat, m: Msg, env: Env)
    requires i < |s.c| && env.Ok()
    ensures ReplyFits(ServerMsg(s, i, m, env).1)
  {
    RepliesFit(m, env);
    hide First, Err, ServerSpec.Ok, AddAttr, CStr, DropEntry, AddEntry, LookupName, GetTempId, NameInUse, CloseDoomed;
    hide PeerAttrs, EncAttrs;
  }

  lemma DispatchFits(s: Srv, i: nat, m: Msg, env: Env)
    requires i < |s.c| && s.c[i].Open() && QueuesFit(s.c) && m.Fits() && env.Ok()
    ensures var (s', reply) := Dispatch(s, i, m, env);
            |s'.c| == |s.c| && QueuesFit(s'.c) && ReplyFits(reply)
  {
    hide ServerMsg, Err, ServerSpec.Ok, AllFit, CloseDoomed, Msg.Fits;
    RepliesFit(m, env);
    var (s', reply) := Dispatch(s, i, m, env);
    if m.dst == 0 {
      ServerMsgFits(s, i, m, env);
      ServerMsgRelabels(s, i, m, env);
      CloseDoomedSpares(s, i, s.c[i].id);
      assert forall j | 0 <= j < |s.c| && s'.c[j].Open() :: s.c[j] in s.c && s.c[j].Open() && s'.c[j].tx == s.c[j].tx;
    } else if m.dst != BROADCAST {
      var k := FindPeer(s.c, m.dst);
      if k < |s.c| { EnqueueFits(s, k, m); }
    }
  }

  lemma EnqueueFits(s: Srv, j: nat, m: Msg)
    requires QueuesFit(s.c) && j < |s.c| && m.Fits()
    ensures QueuesFit(EnqueueAt(s, j, m).c)
  {
    var c' := EnqueueAt(s, j, m).c;
    assert s.c[j] in s.c;
    assert forall k | 0 <= k < |s.c| && k != j :: c'[k] == s.c[k] && s.c[k] in s.c;
  }

  lemma ProcessFits(s: Srv, i: nat, m: Msg, env: Env)
    requires i < |s.c| && s.c[i].Open() && QueuesFit(s.c) && m.Fits() && env.Ok()
    ensures QueuesFit(ProcessMsg(s, i, m, env).c)
  {
    hide Dispatch, QueuesFit;
    var m' := Stamp(s.c[i], m);
    DispatchFits(s, i, m', env);
    var (s', reply) := Dispatch(s, i, m', env);
    if reply.Some? { EnqueueFits(s', i, reply.value); }
  }

  // ----- every step -----

  /** Slot `i` is replaced by one whose queue is a suffix of what it was. */
  lemma ShorterFits(c: seq<Client>, i: nat, x: Client)
    requires QueuesFit(c) && i < |c|
    requires x.Open() ==> c[i].Open() && forall m <- x.tx.q :: m in c[i].tx.q
    ensures QueuesFit(c[i := x])
  {
    assert c[i] in c;
    assert forall j | 0 <= j < |c| && j != i :: c[i := x][j] == c[j] && c[j] in c;
  }

  lemma InputFits(s: Srv, i: nat, now: int, chunk: seq<byte>, env: Env, cfg: Config)
    requires i < |s.c| && s.c[i].Open() && QueuesFit(s.c) && env.Ok()
    requires var rx := ForRead(s, i, now, cfg).c[i].rbuf.value; rx.Ok() && 0 < |chunk| <= rx.size - |rx.got|
    ensures QueuesFit(ReadAt(ForRead(s, i, now, cfg), i, chunk, env).c)
  {
    hide ProcessMsg, Feed, QueuesFit;
    var s1 := ForRead(s, i, now, cfg);
    ShorterFits(s.c, i, s1.c[i]);
    match Feed(s1.c[i].rbuf.value, chunk)
    case Died =>
    case Pending(rx) => ShorterFits(s1.c, i, s1.c[i].(rbuf := Some(rx)));
    case Complete(m) =>
      var x := s1.c[i].(rbuf := None);
      ShorterFits(s1.c, i, x);
      ProcessFits(s1.(c := s1.c[i := x]), i, m, env);
  }

  lemma UpkeepFits(s: Srv, s': Srv, now: int, lfd: int, cfg: Config)
    requires QueuesFit(s.c) && Upkept(s, s', now, lfd, cfg)
    ensures QueuesFit(s'.c)
  {
    hide Survivors, AllFit;
    SurvivorIds(s.c, now, cfg);
    PrefixIds(s'.c, Survivors(s.c, now, cfg));
    forall x <- s'.c | x.Open()
      ensures AllFit(x.tx.q)
    {
      var y :| y in s.c && x == y.(rbuf := x.rbuf) && y.Open();
    }
  }

  lemma AcceptFits(s: Srv, fd: nat, nonblock: bool, now: int)
    requires QueuesFit(s.c)
    ensures QueuesFit(Accept(s, fd, nonblock, now).c)
  {
    var c' := Accept(s, fd, nonblock, now).c;
    var k := FindFree(s.c);
    assert forall j | 0 <= j < |s.c| && j != k :: c'[j] == s.c[j] && s.c[j] in s.c;
  }

  lemma StepKeepsFits(s: Srv, e: Event, s': Srv, lfd: int, cfg: Config)
    requires QueuesFit(s.c) && Step(s, e, s', lfd, cfg)
    ensures QueuesFit(s'.c)
  {
    hide QueuesFit, Upkept, ReadAt, Accept;
    match e
    case Connect(fd, nonblock, now) => AcceptFits(s, fd, nonblock, now);
    case Input(i, now, chunk, env) => InputFits(s, i, now, chunk, env, cfg);
    case NoInput(i, now) => ShorterFits(s.c, i, s'.c[i]);
    case Output(i, n, now) => ShorterFits(s.c, i, s'.c[i]);
    case NoOutput(i, now) => ShorterFits(s.c, i, s'.c[i]);
    case Hangup(i) => ShorterFits(s.c, i, s'.c[i]);
    case Upkeep(now) => UpkeepFits(s, s', now, lfd, cfg);
  }

  /** In every run from an empty server, whatever its accounts: every queued message fits, so that each
      connection is a reliable channel. */
  lemma {:induction false} AllQueuesFit(r: seq<Srv>, es: seq<Event>, lfd: int, cfg: Config, k: nat)
    requires Run(r, es, lfd, cfg) && k <= |es| && forall x <- r[0].c :: x == CLOSED
    ensures forall x <- r[k].c | x.Open() :: AllFit(x.tx.q)
  {
    hide Step;
    if k > 0 {
      AllQueuesFit(r, es, lfd, cfg, k - 1);
      assert Step(r[k - 1], es[k - 1], r[k], lfd, cfg);
      StepKeepsFits(r[k - 1], es[k - 1], r[k], lfd, cfg);
    }
  }
}
