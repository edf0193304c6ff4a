/** A pass over the ready descriptors, seen from outside: what happens to one slot, and that counting descriptors
    down never ends a pass too early. */
module ServerPass {
  import opened Bytes
  import opened Message
  import opened Channel
  import opened UserFile
  import opened UserDb
  import opened ServerSpec
  import opened ServerInv
  import opened ServerIo

  // ----- one slot -----

  /** Neither readable nor writable: nothing happens. */
  lemma QuietSlot(s: Srv, i: nat, rset: set<int>, wset: set<int>, io: Io, now: int, lfd: int, cfg: Config)
    requires FdInv(s, lfd) && i < |s.c| && s.c[i].Open() && Snapshot(s, i, wset)
    requires s.c[i].fd !in rset && s.c[i].fd !in wset
    ensures IoSlot(s, i, rset, wset, io, now, lfd, cfg) == s
  {
    hide FdInv, Snapshot, ReadHalf, WriteHalf;
  }

  /** Readable: nothing yet, which is activity; the end, or an error, which closes the connection; or bytes, of which
      as many are taken as the receive buffer holds. */
  lemma ReadableSlot(s: Srv, i: nat, rset: set<int>, wset: set<int>, io: Io, now: int, lfd: int, cfg: Config)
    requires FdInv(s, lfd) && i < |s.c| && s.c[i].Open() && Snapshot(s, i, wset)
    requires s.c[i].fd in rset && s.c[i].fd !in wset
    ensures var s' := IoSlot(s, i, rset, wset, io, now, lfd, cfg);
            match io.rd
            case ReadAgain =>
              s' == s.(c := s.c[i := s.c[i].(rbuf := s'.c[i].rbuf, act := now)]) && s'.c[i].rbuf.Some?
            case ReadFailed =>
              s'.c[i].fd < 0
              && s' == s.(c := s.c[i := s'.c[i]], rfds := s.rfds - {s.c[i].fd}, wfds := s.wfds - {s.c[i].fd})
            case Data(bytes) =>
              if bytes == [] then
                s'.c[i].fd < 0
                && s' == s.(c := s.c[i := s'.c[i]], rfds := s.rfds - {s.c[i].fd}, wfds := s.wfds - {s.c[i].fd})
              else
                var s1 := ForRead(s, i, now, cfg);
                var rx := s1.c[i].rbuf.value;
                var n := if |bytes| < rx.size - |rx.got| then |bytes| else rx.size - |rx.got|;
                rx.Ok() && 0 < n && s' == ReadAt(s1, i, bytes[..n], io.env)
  {
    hide Snapshot, WriteHalf, ReadAt;
    ReadKeepsFds(s, i, now, [], io.env, lfd, cfg);
    hide FdInv;
    var s1 := if s.c[i].fd in rset then ReadHalf(s, i, io, now, lfd, cfg) else s;
    assert s1.c[i].Open() ==> s1.c[i].fd == s.c[i].fd;
  }

  /** Writable: nothing yet, which is activity; an error, which closes the connection; or room, of which as much is
      used as the head of the queue takes. */
  lemma WritableSlot(s: Srv, i: nat, rset: set<int>, wset: set<int>, io: Io, now: int, lfd: int, cfg: Config)
    requires FdInv(s, lfd) && i < |s.c| && s.c[i].Open() && Snapshot(s, i, wset) && !s.dead
    requires s.c[i].fd !in rset && s.c[i].fd in wset
    ensures var s' := IoSlot(s, i, rset, wset, io, now, lfd, cfg);
            s.c[i].tx.q != []
            && match io.wr
               case WriteAgain => s' == s.(c := s.c[i := s.c[i].(act := now)])
               case WriteFailed => s' == Close(s, i)
               case Room(room) =>
                 var left := 40 + |s.c[i].tx.q[0].pay| - s.c[i].tx.off;
                 if room == 0 then s' == Close(s, i)
                 else left > 0 && s.c[i].tx.Ok() && s' == WriteAt(s, i, if room < left then room else left, now)
  {
    hide ReadHalf, WriteAt, Close;
    assert s.c[i].tx.Ok();
    hide FdInv;
  }

  // ----- the count -----

  /** How many of the reported descriptors belong to slots from `i` on. */
  function Reported(c: seq<Client>, i: nat, rset: set<int>, wset: set<int>): nat
    requires i <= |c|
    decreases |c| - i
  {
    if i == |c| then 0
    else
      Reported(c, i + 1, rset, wset)
      + (if c[i].fd >= 0 && c[i].fd in rset then 1 else 0) + (if c[i].fd >= 0 && c[i].fd in wset then 1 else 0)
  }

  /** The pass without the count: every slot is looked at. */
  function WholePass(s: Srv, i: nat, rset: set<int>, wset: set<int>, ios: seq<Io>, now: int, lfd: int, cfg: Config)
    : (r: Srv)
    requires FdInv(s, lfd) && i <= |s.c| == |ios| && Snapshot(s, i, wset)
    decreases |s.c| - i
  {
    if i == |s.c| || s.dead then s
    else if !s.c[i].Open() then WholePass(s, i + 1, rset, wset, ios, now, lfd, cfg)
    else WholePass(IoSlot(s, i, rset, wset, ios[i], now, lfd, cfg), i + 1, rset, wset, ios, now, lfd, cfg)
  }

  /** Slots that close or only gain messages report no more. */
  lemma {:induction false} ReportedFalls(c: seq<Client>, c': seq<Client>, i: nat, rset: set<int>, wset: set<int>)
    requires |c'| == |c| && i <= |c| && forall j | i <= j < |c| :: OnlyGains(c[j], c'[j])
    ensures Reported(c', i, rset, wset) <= Reported(c, i, rset, wset)
    decreases |c| - i
  {
    if i < |c| { ReportedFalls(c, c', i + 1, rset, wset); }
  }

  lemma {:induction false} NoneReported(s: Srv, i: nat, rset: set<int>, wset: set<int>, ios: seq<Io>, now: int,
          lfd: int, cfg: Config)
    requires FdInv(s, lfd) && i <= |s.c| == |ios| && Snapshot(s, i, wset) && Reported(s.c, i, rset, wset) == 0
    ensures WholePass(s, i, rset, wset, ios, now, lfd, cfg) == s
    decreases |s.c| - i
  {
    hide FdInv, Snapshot, IoSlot;
    if i < |s.c| && !s.dead {
      SnapshotNext(s, i, wset);
      if s.c[i].Open() { QuietSlot(s, i, rset, wset, ios[i], now, lfd, cfg); }
      NoneReported(s, i + 1, rset, wset, ios, now, lfd, cfg);
    }
  }

  lemma SlotGains(s: Srv, i: nat, rset: set<int>, wset: set<int>, io: Io, now: int, lfd: int, cfg: Config)
    requires FdInv(s, lfd) && i < |s.c| && s.c[i].Open() && Snapshot(s, i, wset)
    ensures var s' := IoSlot(s, i, rset, wset, io, now, lfd, cfg);
            |s'.c| == |s.c| && forall j | i < j < |s.c| :: OnlyGains(s.c[j], s'.c[j])
  {
    hide FdInv, ReadHalf, WriteHalf;
    var s1 := if s.c[i].fd in rset then ReadHalf(s, i, io, now, lfd, cfg) else s;
    GainsKeepSnapshot(s, s1, i, wset);
  }

  lemma ServedIsReported(s: Srv, i: nat, rset: set<int>, wset: set<int>, io: Io, now: int, lfd: int, cfg: Config)
    requires FdInv(s, lfd) && i < |s.c| && s.c[i].Open()
    ensures Served(s, i, rset, wset, io, now, lfd, cfg) + Reported(s.c, i + 1, rset, wset)
            <= Reported(s.c, i, rset, wset)
  {
    hide FdInv, ReadHalf;
    var s1 := if s.c[i].fd in rset then ReadHalf(s, i, io, now, lfd, cfg) else s;
    assert OnlyGains(s.c[i], s1.c[i]);
  }

  /** Counting the reported descriptors down, and stopping at zero, leaves no ready slot out: the pass is the pass over
      all slots, whatever connections close on the way. */
  lemma {:induction false} StopsInTime(s: Srv, i: nat, nset: int, rset: set<int>, wset: set<int>, ios: seq<Io>,
          now: int, lfd: int, cfg: Config)
    requires FdInv(s, lfd) && i <= |s.c| == |ios| && Snapshot(s, i, wset) && nset >= Reported(s.c, i, rset, wset)
    ensures IoPass(s, i, nset, rset, wset, ios, now, lfd, cfg).0 == WholePass(s, i, rset, wset, ios, now, lfd, cfg)
    decreases |s.c| - i
  {
    hide FdInv, Snapshot, IoSlot, Served;
    if i < |s.c| && !s.dead {
      if nset <= 0 {
        NoneReported(s, i, rset, wset, ios, now, lfd, cfg);
      } else if !s.c[i].Open() {
        SnapshotNext(s, i, wset);
        StopsInTime(s, i + 1, nset, rset, wset, ios, now, lfd, cfg);
      } else {
        var s' := IoSlot(s, i, rset, wset, ios[i], now, lfd, cfg);
        SlotGains(s, i, rset, wset, ios[i], now, lfd, cfg);
        ServedIsReported(s, i, rset, wset, ios[i], now, lfd, cfg);
        ReportedFalls(s.c, s'.c, i + 1, rset, wset);
        StopsInTime(s', i + 1, nset - Served(s, i, rset, wset, ios[i], now, lfd, cfg), rset, wset, ios, now, lfd, cfg);
      }
    }
  }
}
