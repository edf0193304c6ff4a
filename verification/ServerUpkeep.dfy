/** What upkeep, accepting and a pause do to connections, in seconds and slots. */
module ServerUpkeep {
  import opened Bytes
  import opened Message
  import opened Channel
  import opened UserFile
  import opened UserDb
  import opened ServerSpec
  import opened ServerInv

  /** Connected, and active within the last `timeout` seconds. */
  predicate Recent(c: Client, now: int, timeout: int) { c.fd >= 0 && now - c.act <= timeout }

  /** How many slots before `k` are. */
  function RecentBefore(c: seq<Client>, k: nat, now: int, timeout: int): nat
    requires k <= |c|
  {
    if k == 0 then 0 else RecentBefore(c, k - 1, now, timeout) + if Recent(c[k - 1], now, timeout) then 1 else 0
  }

  /** The slot after a pause: what was received of a message is given up after `timeout` seconds. */
  function Rested(c: Client, now: int, timeout: int): Client {
    c.(rbuf := if c.rbuf.Some? && now - c.act > timeout then None else c.rbuf)
  }

  lemma {:induction false} RecentPrefix(c: seq<Client>, k: nat, now: int, timeout: int)
    requires c != [] && k < |c|
    ensures RecentBefore(c, k, now, timeout) == RecentBefore(c[..|c| - 1], k, now, timeout)
  {
    if k > 0 { RecentPrefix(c, k - 1, now, timeout); }
  }

  lemma {:induction false} RecentGrows(c: seq<Client>, k: nat, n: nat, now: int, timeout: int)
    requires k <= n <= |c|
    ensures var m := RecentBefore(c, n, now, timeout) - RecentBefore(c, k, now, timeout); 0 <= m <= n - k
  {
    if k < n { RecentGrows(c, k, n - 1, now, timeout); }
  }

  /** The survivors, one by one. */
  lemma {:induction false} SurvivorAt(c: seq<Client>, now: int, cfg: Config)
    ensures var l := Survivors(c, now, cfg);
            && |l| == RecentBefore(c, |c|, now, cfg.connTimeout)
            && forall k | 0 <= k < |c| && Recent(c[k], now, cfg.connTimeout) ::
                 var n := RecentBefore(c, k, now, cfg.connTimeout);
                 n < |l| && l[n] == Rested(c[k], now, cfg.msgTimeout)
  {
    if c != [] {
      var z := |c| - 1;
      var c0 := c[..z];
      SurvivorAt(c0, now, cfg);
      RecentPrefix(c, z, now, cfg.connTimeout);
      assert Stays(c[z], now, cfg) <==> Recent(c[z], now, cfg.connTimeout);
      var l0, l := Survivors(c0, now, cfg), Survivors(c, now, cfg);
      assert l0 <= l;
      forall k | 0 <= k < |c| && Recent(c[k], now, cfg.connTimeout)
        ensures var n := RecentBefore(c, k, now, cfg.connTimeout);
                n < |l| && l[n] == Rested(c[k], now, cfg.msgTimeout)
      {
        if k < z {
          assert c0[k] == c[k];
          RecentPrefix(c, k, now, cfg.connTimeout);
        }
      }
    }
  }

  /** And each of them was one. */
  lemma {:induction false} SurvivorOf(c: seq<Client>, n: nat, now: int, timeout: int) returns (k: nat)
    requires n < RecentBefore(c, |c|, now, timeout)
    ensures k < |c| && Recent(c[k], now, timeout) && RecentBefore(c, k, now, timeout) == n
  {
    k := Place(c, |c|, n, now, timeout);
  }

  lemma {:induction false} Place(c: seq<Client>, z: nat, n: nat, now: int, timeout: int) returns (k: nat)
    requires z <= |c| && n < RecentBefore(c, z, now, timeout)
    ensures k < z && Recent(c[k], now, timeout) && RecentBefore(c, k, now, timeout) == n
    decreases z
  {
    if n < RecentBefore(c, z - 1, now, timeout) { k := Place(c, z - 1, n, now, timeout); } else { k := z - 1; }
  }

  /** Upkeep.  The k-th slot of a connection that was active within the connection timeout is found at its rank
      among those, as it was, but for what was received of a message before a pause longer than the message
      timeout.  Behind them all slots are unused. */
  lemma UpkeepKeeps(s: Srv, s': Srv, now: int, lfd: int, cfg: Config)
    requires Upkept(s, s', now, lfd, cfg)
    ensures |s'.c| == |s.c| && s'.db == s.db && s'.dead == s.dead
    ensures forall k | 0 <= k < |s.c| && s.c[k].fd >= 0 && now - s.c[k].act <= cfg.connTimeout ::
              var n := RecentBefore(s.c, k, now, cfg.connTimeout);
              && n <= k
              && s'.c[n].fd == s.c[k].fd && s'.c[n].id == s.c[k].id && s'.c[n].name == s.c[k].name
              && s'.c[n].key == s.c[k].key && s'.c[n].st == s.c[k].st && s'.c[n].tx == s.c[k].tx
              && s'.c[n].act == s.c[k].act
              && s'.c[n].rbuf == if now - s.c[k].act > cfg.msgTimeout then None else s.c[k].rbuf
    ensures RecentBefore(s.c, |s.c|, now, cfg.connTimeout) <= |s.c|
    ensures forall n | RecentBefore(s.c, |s.c|, now, cfg.connTimeout) <= n < |s.c| :: s'.c[n].fd < 0
  {
    SurvivorAt(s.c, now, cfg);
    RecentGrows(s.c, 0, |s.c|, now, cfg.connTimeout);
    var l := Survivors(s.c, now, cfg);
    hide Survivors;
    assert forall n | 0 <= n < |l| :: s'.c[n] == l[n];
    forall k | 0 <= k < |s.c| && s.c[k].fd >= 0 && now - s.c[k].act <= cfg.connTimeout
      ensures var n := RecentBefore(s.c, k, now, cfg.connTimeout);
              n <= k && s'.c[n] == Rested(s.c[k], now, cfg.msgTimeout)
    {
      RecentGrows(s.c, 0, k, now, cfg.connTimeout);
      assert Recent(s.c[k], now, cfg.connTimeout);
    }
  }

  /** So a connection is closed if and only if it has been silent for longer than the connection timeout, and its
      descriptor leaves both sets exactly then. */
  lemma UpkeepCloses(s: Srv, s': Srv, now: int, lfd: int, cfg: Config, k: nat)
    requires FdInv(s, lfd) && Upkept(s, s', now, lfd, cfg) && k < |s.c| && s.c[k].fd >= 0
    ensures (exists n | 0 <= n < |s'.c| :: s'.c[n].fd == s.c[k].fd) <==> now - s.c[k].act <= cfg.connTimeout
    ensures s.c[k].fd in s'.rfds <==> now - s.c[k].act <= cfg.connTimeout
    ensures s.c[k].fd in s'.wfds <==> now - s.c[k].act <= cfg.connTimeout && s.c[k].tx.q != []
  {
    UpkeepKeeps(s, s', now, lfd, cfg);
    SetsOf(s, lfd, k);
    var gone := ExpiredFds(s.c, now, cfg);
    if n :| 0 <= n < |s'.c| && s'.c[n].fd == s.c[k].fd {
      var j := SurvivorOf(s.c, n, now, cfg.connTimeout);
      SameSlotOf(s, lfd, j, k);
    }
    forall j | 0 <= j < |s.c| && s.c[j].Open() && s.c[j].fd == s.c[k].fd
      ensures j == k
    {
      SameSlotOf(s, lfd, j, k);
    }
    assert s.c[k].fd in gone <==> now - s.c[k].act > cfg.connTimeout;
    hide FdInv, Survivors, MaxFd, RecentBefore;
  }

  lemma SameSlotOf(s: Srv, lfd: int, j: nat, k: nat)
    requires FdInv(s, lfd) && j < |s.c| && k < |s.c| && s.c[j].Open() && s.c[j].fd == s.c[k].fd
    ensures j == k
  {
    assert DistinctFds(s.c);
    hide FdInv;
  }

  lemma SetsOf(s: Srv, lfd: int, k: nat)
    requires FdInv(s, lfd) && k < |s.c| && s.c[k].Open()
    ensures s.c[k].fd in s.rfds && (s.c[k].fd in s.wfds <==> s.c[k].tx.q != [])
  {
    if s.c[k].fd in BusyFds(s.c) {
      var j :| 0 <= j < |s.c| && s.c[j].Open() && s.c[j].tx.q != [] && s.c[j].fd == s.c[k].fd;
      SameSlotOf(s, lfd, j, k);
    }
  }

  /** A read after a pause longer than the message timeout begins with a new header; any other goes on with what has
      been received. */
  lemma ReadBegins(s: Srv, i: nat, now: int, cfg: Config)
    requires i < |s.c|
    ensures var rx := if s.c[i].rbuf.Some? && now - s.c[i].act <= cfg.msgTimeout then s.c[i].rbuf.value else Rx([], 40);
            ForRead(s, i, now, cfg) == s.(c := s.c[i := s.c[i].(rbuf := Some(rx), act := now)])
  {}

  /** A new connection gets the first unused slot, in the state before LOGIN; it is dropped if its descriptor is
      1024 or more, if it blocks, or without an unused slot. */
  lemma AcceptTakes(s: Srv, fd: nat, nonblock: bool, now: int, k: nat)
    requires k <= |s.c| && (forall j | 0 <= j < k :: s.c[j].fd >= 0) && (k < |s.c| ==> s.c[k].fd < 0)
    ensures Accept(s, fd, nonblock, now) ==
            if fd >= 1024 || !nonblock || k == |s.c| then s
            else s.(c := s.c[k := Client(fd, 0, None, None, PreLogin, now, None, Tx([], 0))],
                    rfds := s.rfds + {fd}, maxfd := if fd > s.maxfd then fd else s.maxfd)
  {
    assert FindFree(s.c) == k;
  }

  /** A write counts as activity.  It moves on in the first message of the queue, or finishes it; with the last one the
      descriptor leaves the write set. */
  lemma WriteMoves(s: Srv, i: nat, n: nat, now: int)
    requires i < |s.c| && s.c[i].tx.Ok() && s.c[i].tx.q != [] && 0 < n <= 40 + |s.c[i].tx.q[0].pay| - s.c[i].tx.off
    ensures var done := s.c[i].tx.off + n == 40 + |s.c[i].tx.q[0].pay|;
            var tx := if done then Tx(s.c[i].tx.q[1..], 0) else Tx(s.c[i].tx.q, s.c[i].tx.off + n);
            WriteAt(s, i, n, now) == s.(c := s.c[i := s.c[i].(tx := tx, act := now)],
                                        wfds := if done && |s.c[i].tx.q| == 1 then s.wfds - {s.c[i].fd} else s.wfds)
  {}

  /** A connection that is closed leaves its slot unused and both sets without its descriptor. */
  lemma CloseFrees(s: Srv, i: nat)
    requires i < |s.c|
    ensures var s' := Close(s, i);
            && s'.c[i].fd < 0 && s'.c[i].tx.q == [] && s'.c[i].name.None? && s'.c[i].key.None?
            && s' == s.(c := s.c[i := s'.c[i]], rfds := s.rfds - {s.c[i].fd}, wfds := s.wfds - {s.c[i].fd})
  {}

  /** An attempt to write that writes nothing is activity, too. */
  lemma TouchCounts(s: Srv, i: nat, now: int)
    requires i < |s.c|
    ensures Touch(s, i, now) == s.(c := s.c[i := s.c[i].(act := now)])
  {}

  /** After upkeep the maximum is exactly the largest descriptor in use. */
  lemma UpkeepMax(s: Srv, s': Srv, now: int, lfd: int, cfg: Config)
    requires Upkept(s, s', now, lfd, cfg) && lfd >= 0
    ensures lfd <= s'.maxfd && forall n | 0 <= n < |s'.c| :: s'.c[n].fd <= s'.maxfd
    ensures s'.maxfd == lfd || exists n | 0 <= n < |s'.c| :: s'.c[n].fd == s'.maxfd
  {
    var l := Survivors(s.c, now, cfg);
    MaxIsOne(l, lfd);
    hide Survivors, MaxFd;
    assert forall n | 0 <= n < |l| :: s'.c[n] == l[n] && l[n] in l;
  }

  lemma {:induction false} MaxIsOne(l: seq<Client>, m: int)
    ensures MaxFd(l, m) == m || exists n | 0 <= n < |l| :: l[n].fd == MaxFd(l, m)
  {
    if l != [] {
      var l0 := l[..|l| - 1];
      MaxIsOne(l0, m);
      if n :| 0 <= n < |l0| && l0[n].fd == MaxFd(l0, m) { assert l[n].fd == MaxFd(l0, m); }
    }
  }
}
