/** Whole runs of the transfers: every running download is an exact copy in the making, and ends as one. */
module TransferRuns {
  import opened Bytes
  import opened Message
  import opened ClientSpec
  import opened TransferFacts
  import opened Transfers
  import opened TransferFrame
  import opened TransferServe
  import opened TransferTake
  import opened TransferSteps
  import opened TransferOther

  /** Clients that have only just connected, or have had nothing to do with files so far. */
  ghost predicate Initial(s: Net) {
    s.running == map[] && (forall m <- s.flight :: !Core(m)) && forall q <- s.peers :: Newcomer(s.peers[q])
  }

  ghost predicate Run(ss: seq<Net>, acts: seq<Act>) {
    |ss| == |acts| + 1 && forall i | 0 <= i < |acts| :: Step(ss[i], acts[i], ss[i + 1])
  }

  lemma {:induction false} NoneCounted(l: seq<Msg>, x: Sel)
    requires x.mtype in {GETFILE_REQ, GETFILE_RES} && forall m <- l :: m.mtype !in {GETFILE_REQ, GETFILE_RES}
    ensures Count(l, x) == 0
  {
    if l != [] {
      NoneCounted(l[..|l| - 1], x);
      assert l[|l| - 1] in l;
    }
  }

  lemma InitialInv(s: Net)
    requires Initial(s)
    ensures Inv(s)
  {
    hide Count, OidOf, Pending, RunningOk;
    forall k: Key | k.q in s.peers && k.p in s.peers
      ensures Outstanding(s, k) == 0
    {
      NoneCounted(s.peers[k.q].queue, ReqQ(k));
      NoneCounted(s.flight, ReqF(k));
      NoneCounted(s.peers[k.p].queue, ResQ(k));
      NoneCounted(s.flight, ResF(k));
    }
    forall q, p, t | q in s.peers && p in s.peers
      ensures Owed(s, q, p, t) == 0
    {
      NoneCounted(s.flight, Sel(GETFILE_REQ, Some(q), p, None, Some(t)));
      NoneCounted(s.peers[p].queue, Sel(GETFILE_RES, None, q, None, Some(t)));
      NoneCounted(s.flight, Sel(GETFILE_RES, Some(p), q, None, Some(t)));
    }
  }

  lemma {:induction false} RunInv(ss: seq<Net>, acts: seq<Act>, i: nat)
    requires Run(ss, acts) && Initial(ss[0]) && i < |ss|
    ensures Inv(ss[i])
  {
    hide Inv, Initial, Step;
    if i == 0 {
      InitialInv(ss[0]);
    } else {
      RunInv(ss, acts, i - 1);
      StepKeeps(ss[i - 1], acts[i - 1], ss[i]);
    }
  }

  /** At every moment of every run, each running download has exactly one request or response outstanding,
      and its part file holds exactly the first `offset` bytes of the source. */
  lemma PartFilesExact(ss: seq<Net>, acts: seq<Act>, i: nat, k: Key)
    requires Run(ss, acts) && Initial(ss[0]) && i < |ss| && k in ss[i].running
    ensures k.q in ss[i].peers && k.p in ss[i].peers && Outstanding(ss[i], k) == 1
    ensures var c := ss[i].peers[k.q];
            var src := ss[i].running[k];
            && FindTransfer(c.transfers, Download, k.p, k.oid) < |c.transfers|
            && var d := Entry(c, k.p, k.oid);
               && d.size == |src| && d.offset <= |src| && d.part.Some?
               && d.part.value in c.files && c.files[d.part.value] == src[..d.offset]
  {
    RunInv(ss, acts, i);
    hide Outstanding, FindTransfer, GoodReq, GoodRes, Count, Offers, Run, Initial;
  }

  /** A step at which a download ends is the delivery of an empty piece, never before the file is complete,
      and leaves the whole source under the final name. */
  lemma EndsComplete(s: Net, a: Act, s': Net, k: Key)
    requires Inv(s) && Step(s, a, s') && k in s.running && k !in s'.running
    ensures a.Deliver? && a.n < |s.flight| && Finishes(s.flight[a.n]) && KeyOf(s.flight[a.n]) == k
    ensures k.q in s.peers && k.q in s'.peers
    ensures FindTransfer(s.peers[k.q].transfers, Download, k.p, k.oid) < |s.peers[k.q].transfers|
    ensures var d := Entry(s.peers[k.q], k.p, k.oid);
            && d.offset == d.size && d.name.Some?
            && d.name.value in s'.peers[k.q].files && s'.peers[k.q].files[d.name.value] == s.running[k]
  {
    EndIsDelivery(s, a, s', k);
    hide Step;
    var t, o := Taken(s, a.n, a.env);
    hide Inv;
    TakenEnd(s, a.n, s', t, o);
  }

  lemma EndIsDelivery(s: Net, a: Act, s': Net, k: Key)
    requires Step(s, a, s') && k in s.running && k !in s'.running
    ensures a.Deliver? && a.n < |s.flight| && Finishes(s.flight[a.n]) && KeyOf(s.flight[a.n]) == k
    ensures s.flight[a.n].mtype == GETFILE_RES && s.flight[a.n].dst in s.peers && a.env.Ok() && a.env.HostOk()
    ensures s' == Delivered(s, a.n, a.env)
  {
    hide Chats, Turns, CanAccept, ProcessSrvMsg, AcceptOffer, OidOf, Attrs;
  }

  lemma TakenEnd(s: Net, n: nat, s': Net, t: Transfer, o: Option<Msg>)
    requires AfterResponse(s, n, s', t, o) && GoodTaking(s, n, s', o) && KeyOf(s.flight[n]) !in s'.running
    ensures var k := KeyOf(s.flight[n]);
            && k in s.running && k.q in s.peers && k.q in s'.peers
            && FindTransfer(s.peers[k.q].transfers, Download, k.p, k.oid) < |s.peers[k.q].transfers|
            && var d := Entry(s.peers[k.q], k.p, k.oid);
               && d.offset == d.size && d.name.Some?
               && d.name.value in s'.peers[k.q].files && s'.peers[k.q].files[d.name.value] == s.running[k]
  {
    hide FindTransfer, OidOf, Touched, FindPending, GoodReq, GoodRes, Offers, Count;
  }

  /** The transfer theorem for runs: a download that was running and no longer is has been delivered whole. */
  lemma DownloadsComplete(ss: seq<Net>, acts: seq<Act>, i: nat, k: Key)
    requires Run(ss, acts) && Initial(ss[0]) && i < |acts| && k in ss[i].running && k !in ss[i + 1].running
    ensures k.q in ss[i].peers && k.q in ss[i + 1].peers
    ensures FindTransfer(ss[i].peers[k.q].transfers, Download, k.p, k.oid) < |ss[i].peers[k.q].transfers|
    ensures var d := Entry(ss[i].peers[k.q], k.p, k.oid);
            && d.offset == d.size && d.name.Some?
            && d.name.value in ss[i + 1].peers[k.q].files
            && ss[i + 1].peers[k.q].files[d.name.value] == ss[i].running[k]
  {
    hide Inv, Initial, Step;
    RunInv(ss, acts, i);
    EndsComplete(ss[i], acts[i], ss[i + 1], k);
  }

  /** The content a download is to fetch never changes while it runs. */
  lemma ContentFixed(s: Net, a: Act, s': Net, k: Key)
    requires Step(s, a, s') && k in s.running && k in s'.running
    ensures s'.running[k] == s.running[k]
  {
    hide Chats, Turns, ProcessSrvMsg, AcceptOffer, OidOf, Attrs, Finishes, Apart, Offers, Acceptable, FindTransfer;
  }

  /** No client ever ends its process. */
  lemma NobodyEnds(ss: seq<Net>, acts: seq<Act>, i: nat)
    requires Run(ss, acts) && Initial(ss[0]) && i < |ss|
    ensures forall q <- ss[i].peers :: !ss[i].peers[q].dead
  {
    RunInv(ss, acts, i);
  }
}
