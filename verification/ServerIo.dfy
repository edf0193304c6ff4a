/** One pass over the ready descriptors (srvmain.c `handle_io`). */
module ServerIo {
  import opened Bytes
  import opened Message
  import opened Channel
  import opened UserFile
  import opened UserDb
  import opened ServerSpec
  import opened ServerInv

  datatype Io = Io(rd: ReadResult, wr: WriteResult, env: Env)

  /** Slots from `i` on that select reported writable have something to send. */
  ghost predicate Snapshot(s: Srv, i: nat, wset: set<int>) {
    forall j | i <= j < |s.c| && s.c[j].Open() && s.c[j].fd in wset :: s.c[j].tx.q != []
  }

  /** Slots may only close, or keep their descriptor and gain messages. */
  ghost predicate OnlyGains(x: Client, y: Client) {
    y.Open() ==> x.Open() && y.fd == x.fd && x.tx.q <= y.tx.q
  }

  lemma GainsKeepSnapshot(s: Srv, s': Srv, i: nat, wset: set<int>)
    requires |s'.c| == |s.c| && Snapshot(s, i, wset)
    requires forall j | i <= j < |s.c| :: OnlyGains(s.c[j], s'.c[j])
    ensures Snapshot(s', i, wset)
  {}

  lemma ProcessGains(s: Srv, i: nat, m: Msg, env: Env)
    requires i < |s.c| && s.c[i].Open()
    ensures var s' := ProcessMsg(s, i, m, env);
            |s'.c| == |s.c| && forall j | 0 <= j < |s.c| :: OnlyGains(s.c[j], s'.c[j])
  {
    hide ServerMsg, Err, CloseDoomed;
    var m' := Stamp(s.c[i], m);
    if m.dst == 0 {
      ServerMsgRelabels(s, i, m', env);
      CloseDoomedSpares(s, i, s.c[i].id);
    }
  }

  /** The read half for an open slot that select reported readable. */
  function ReadHalf(s: Srv, i: nat, io: Io, now: int, lfd: int, cfg: Config): (s': Srv)
    requires FdInv(s, lfd) && i < |s.c| && s.c[i].Open()
    ensures FdInv(s', lfd) && |s'.c| == |s.c|
    ensures forall j | 0 <= j < |s.c| :: OnlyGains(s.c[j], s'.c[j])
  {
    ReadKeepsFds(s, i, now, [], io.env, lfd, cfg);
    var s1 := ForRead(s, i, now, cfg);
    var rx := s1.c[i].rbuf.value;
    if io.rd.ReadAgain? then s1
    else if io.rd.ReadFailed? || io.rd.bytes == [] then CloseKeepsFds(s, i, lfd); Close(s, i)
    else
      var chunk := io.rd.bytes[..Min(|io.rd.bytes|, rx.size - |rx.got|)];
      ReadKeepsFds(s, i, now, chunk, io.env, lfd, cfg);
      ReadGains(s, s1, i, chunk, io.env);
      ReadAt(s1, i, chunk, io.env)
  }

  lemma ReadGains(s: Srv, s1: Srv, i: nat, chunk: seq<byte>, env: Env)
    requires i < |s.c| && s.c[i].Open() && |s1.c| == |s.c| && s1.c == s.c[i := s1.c[i]]
    requires s1.c[i].fd == s.c[i].fd && s1.c[i].tx == s.c[i].tx
    requires s1.c[i].rbuf.Some? && s1.c[i].rbuf.value.Ok()
    requires 0 < |chunk| <= s1.c[i].rbuf.value.size - |s1.c[i].rbuf.value.got|
    ensures var s' := ReadAt(s1, i, chunk, env);
            |s'.c| == |s.c| && forall j | 0 <= j < |s.c| :: OnlyGains(s.c[j], s'.c[j])
  {
    hide ProcessMsg, Feed;
    match Feed(s1.c[i].rbuf.value, chunk)
    case Died =>
    case Pending(rx) =>
    case Complete(m) =>
      var s2 := s1.(c := s1.c[i := s1.c[i].(rbuf := None)]);
      ProcessGains(s2, i, m, env);
      assert forall j | 0 <= j < |s.c| && j != i :: s2.c[j] == s.c[j];
  }

  /** The write half for an open slot that select reported writable. */
  function WriteHalf(s: Srv, i: nat, io: Io, now: int, lfd: int): (s': Srv)
    requires FdInv(s, lfd) && i < |s.c| && s.c[i].Open() && s.c[i].tx.q != []
    ensures FdInv(s', lfd) && |s'.c| == |s.c| && s'.dead == s.dead
    ensures forall j | 0 <= j < |s.c| && j != i :: s'.c[j] == s.c[j]
  {
    CloseKeepsFds(s, i, lfd);
    TouchKeepsFds(s, i, now, lfd);
    if io.wr.WriteAgain? then Touch(s, i, now)
    else if io.wr.WriteFailed? || io.wr.n == 0 then Close(s, i)
    else
      var n := Min(io.wr.n, MSG_HDR_SIZE + |s.c[i].tx.q[0].pay| - s.c[i].tx.off);
      WriteKeepsFds(s, i, n, now, lfd);
      WriteAt(s, i, n, now)
  }

  /** Slot `i` in one pass; no pass ever reaches into an empty queue, because what `wset` promised when
      select returned still holds for the slots not yet visited. */
  function IoSlot(s: Srv, i: nat, rset: set<int>, wset: set<int>, io: Io, now: int, lfd: int, cfg: Config): (s': Srv)
    requires FdInv(s, lfd) && i < |s.c| && s.c[i].Open() && Snapshot(s, i, wset)
    ensures FdInv(s', lfd) && |s'.c| == |s.c| && Snapshot(s', i + 1, wset)
  {
    var s1 := if s.c[i].fd in rset then ReadHalf(s, i, io, now, lfd, cfg) else s;
    GainsKeepSnapshot(s, s1, i, wset);
    if !s1.dead && s1.c[i].Open() && s1.c[i].fd in wset then WriteHalf(s1, i, io, now, lfd) else s1
  }

  /** How many reported descriptors slot `i` accounts for. */
  function Served(s: Srv, i: nat, rset: set<int>, wset: set<int>, io: Io, now: int, lfd: int, cfg: Config): nat
    requires FdInv(s, lfd) && i < |s.c| && s.c[i].Open()
  {
    var s1 := if s.c[i].fd in rset then ReadHalf(s, i, io, now, lfd, cfg) else s;
    (if s.c[i].fd in rset then 1 else 0) + (if !s1.dead && s1.c[i].Open() && s1.c[i].fd in wset then 1 else 0)
  }

  /** The pass from slot `i` on, while reported descriptors remain. */
  function IoPass(s: Srv, i: nat, nset: int, rset: set<int>, wset: set<int>, ios: seq<Io>, now: int, lfd: int,
          cfg: Config)
    : (r: (Srv, int))
    requires FdInv(s, lfd) && i <= |s.c| == |ios| && Snapshot(s, i, wset)
    ensures FdInv(r.0, lfd) && |r.0.c| == |s.c|
    decreases |s.c| - i
  {
    if i == |s.c| || nset <= 0 || s.dead then (s, nset)
    else if !s.c[i].Open() then IoPass(s, i + 1, nset, rset, wset, ios, now, lfd, cfg)
    else
      IoPass(IoSlot(s, i, rset, wset, ios[i], now, lfd, cfg), i + 1,
             nset - Served(s, i, rset, wset, ios[i], now, lfd, cfg), rset, wset, ios, now, lfd, cfg)
  }

  // ----- a pass is a run -----

  ghost predicate Reaches(s: Srv, s': Srv, lfd: int, cfg: Config) {
    exists r, es :: Run(r, es, lfd, cfg) && r[0] == s && r[|es|] == s'
  }

  lemma ReachSelf(s: Srv, lfd: int, cfg: Config)
    ensures Reaches(s, s, lfd, cfg)
  {
    assert Run([s], [], lfd, cfg);
  }

  lemma ReachStep(s: Srv, e: Event, s': Srv, lfd: int, cfg: Config)
    requires Step(s, e, s', lfd, cfg)
    ensures Reaches(s, s', lfd, cfg)
  {
    hide Step;
    assert Run([s, s'], [e], lfd, cfg);
  }

  lemma ReachTrans(s: Srv, t: Srv, u: Srv, lfd: int, cfg: Config)
    requires Reaches(s, t, lfd, cfg) && Reaches(t, u, lfd, cfg)
    ensures Reaches(s, u, lfd, cfg)
  {
    hide Step;
    var r1, es1 :| Run(r1, es1, lfd, cfg) && r1[0] == s && r1[|es1|] == t;
    var r2, es2 :| Run(r2, es2, lfd, cfg) && r2[0] == t && r2[|es2|] == u;
    var r, es := r1 + r2[1..], es1 + es2;
    forall k | 0 <= k < |es|
      ensures Step(r[k], es[k], r[k + 1], lfd, cfg)
    {
      if k < |es1| {
        assert Step(r1[k], es1[k], r1[k + 1], lfd, cfg);
      } else {
        var q := k - |es1|;
        assert Step(r2[q], es2[q], r2[q + 1], lfd, cfg);
      }
    }
    assert Run(r, es, lfd, cfg) && r[0] == s && r[|es|] == u;
  }

  lemma ReadHalfReaches(s: Srv, i: nat, io: Io, now: int, lfd: int, cfg: Config)
    requires FdInv(s, lfd) && i < |s.c| && s.c[i].Open() && !s.dead && io.env.Ok()
    ensures Reaches(s, ReadHalf(s, i, io, now, lfd, cfg), lfd, cfg)
  {
    hide Reaches, ReadAt, FdInv;
    ReadKeepsFds(s, i, now, [], io.env, lfd, cfg);
    var s' := ReadHalf(s, i, io, now, lfd, cfg);
    if io.rd.ReadAgain? {
      ReachStep(s, NoInput(i, now), s', lfd, cfg);
    } else if io.rd.ReadFailed? || io.rd.bytes == [] {
      ReachStep(s, Hangup(i), s', lfd, cfg);
    } else {
      var rx := ForRead(s, i, now, cfg).c[i].rbuf.value;
      var chunk := io.rd.bytes[..Min(|io.rd.bytes|, rx.size - |rx.got|)];
      ReachStep(s, Input(i, now, chunk, io.env), s', lfd, cfg);
    }
  }

  lemma WriteHalfReaches(s: Srv, i: nat, io: Io, now: int, lfd: int, cfg: Config)
    requires FdInv(s, lfd) && i < |s.c| && s.c[i].Open() && !s.dead && s.c[i].tx.q != []
    ensures Reaches(s, WriteHalf(s, i, io, now, lfd), lfd, cfg)
  {
    hide Reaches, WriteAt, Touch, Close;
    var s' := WriteHalf(s, i, io, now, lfd);
    if io.wr.WriteAgain? {
      ReachStep(s, NoOutput(i, now), s', lfd, cfg);
    } else if io.wr.WriteFailed? || io.wr.n == 0 {
      ReachStep(s, Hangup(i), s', lfd, cfg);
    } else {
      var n := Min(io.wr.n, MSG_HDR_SIZE + |s.c[i].tx.q[0].pay| - s.c[i].tx.off);
      ReachStep(s, Output(i, n, now), s', lfd, cfg);
    }
  }

  /** Everything a pass does is a run of the transition system, so what holds over all runs holds after
      every pass. */
  lemma {:induction false} PassIsRun(s: Srv, i: nat, nset: int, rset: set<int>, wset: set<int>, ios: seq<Io>,
          now: int, lfd: int, cfg: Config)
    requires FdInv(s, lfd) && i <= |s.c| == |ios| && Snapshot(s, i, wset) && forall io <- ios :: io.env.Ok()
    ensures Reaches(s, IoPass(s, i, nset, rset, wset, ios, now, lfd, cfg).0, lfd, cfg)
    decreases |s.c| - i
  {
    hide Reaches, ReadHalf, WriteHalf, FdInv, Snapshot;
    ReachSelf(s, lfd, cfg);
    if i < |s.c| && nset > 0 && !s.dead {
      if !s.c[i].Open() {
        SnapshotNext(s, i, wset);
        PassIsRun(s, i + 1, nset, rset, wset, ios, now, lfd, cfg);
      } else {
        var t := IoSlot(s, i, rset, wset, ios[i], now, lfd, cfg);
        SlotReaches(s, i, rset, wset, ios[i], now, lfd, cfg);
        var n := Served(s, i, rset, wset, ios[i], now, lfd, cfg);
        PassIsRun(t, i + 1, nset - n, rset, wset, ios, now, lfd, cfg);
        ReachTrans(s, t, IoPass(t, i + 1, nset - n, rset, wset, ios, now, lfd, cfg).0, lfd, cfg);
      }
    }
  }

  lemma SnapshotNext(s: Srv, i: nat, wset: set<int>)
    requires Snapshot(s, i, wset)
    ensures Snapshot(s, i + 1, wset)
  {}

  lemma SlotReaches(s: Srv, i: nat, rset: set<int>, wset: set<int>, io: Io, now: int, lfd: int, cfg: Config)
    requires FdInv(s, lfd) && i < |s.c| && s.c[i].Open() && Snapshot(s, i, wset) && !s.dead && io.env.Ok()
    ensures Reaches(s, IoSlot(s, i, rset, wset, io, now, lfd, cfg), lfd, cfg)
  {
    hide Reaches, ReadHalf, WriteHalf, FdInv;
    ReachSelf(s, lfd, cfg);
    var s1 := if s.c[i].fd in rset then ReadHalf(s, i, io, now, lfd, cfg) else s;
    GainsKeepSnapshot(s, s1, i, wset);
    if s.c[i].fd in rset { ReadHalfReaches(s, i, io, now, lfd, cfg); }
    if !s1.dead && s1.c[i].Open() && s1.c[i].fd in wset {
      WriteHalfReaches(s1, i, io, now, lfd, cfg);
      ReachTrans(s, s1, WriteHalf(s1, i, io, now, lfd), lfd, cfg);
    }
  }

  /** The snapshot select takes is good when the write set agrees with the queues. */
  lemma SelectSnapshot(s: Srv, wset: set<int>, lfd: int)
    requires FdInv(s, lfd) && wset <= s.wfds
    ensures Snapshot(s, 0, wset)
  {
    forall j | 0 <= j < |s.c| && s.c[j].Open() && s.c[j].fd in wset
      ensures s.c[j].tx.q != []
    {
      var k :| 0 <= k < |s.c| && s.c[k].Open() && s.c[k].tx.q != [] && s.c[k].fd == s.c[j].fd;
      assert forall a, b | 0 <= a < b < |s.c| && s.c[a].Open() && s.c[b].Open() :: s.c[a].fd != s.c[b].fd;
    }
  }
}
