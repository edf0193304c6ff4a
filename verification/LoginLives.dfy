/** Login agreement for a client that has offered no file: nothing that arrives can end it. */
module LoginLives {
  import opened Bytes
  import opened Message
  import opened Channel
  import opened UserDb
  import opened ServerSpec
  import opened ServerInv
  import opened ServerIds
  import opened LoginAgreement
  import opened LoginRuns
  import C = ClientSpec
  import L = ClientLimits
  import O = TransferOther

  /** Only downloads in its list, and a password that an AUTH request can carry. */
  ghost predicate Modest(c: C.Clt) {
    !c.dead && |c.pubkey| <= MSG_MAX_PAY_SIZE - 20 && OnlyDownloads(c.transfers)
  }

  lemma NothingOffered(c: C.Clt, m: Msg, env: C.Env)
    requires Modest(c)
    ensures !L.TooMuch(c, m, env) && !L.KeyTooLong(c, m)
  {
    hide Attrs, U64Of;
    var l := Attrs(m);
    if C.AttrAt(l, 0, OFFERID).Some? {
      var k := C.FindTransfer(c.transfers, C.Offer, m.src, U64Of(l[0].val));
      if k < |c.transfers| { assert c.transfers[k] in c.transfers; }
    }
  }

  ghost predicate OnlyDownloads(l: seq<C.Transfer>) { forall t <- l :: t.kind == C.Download }

  lemma KindsUpdate(l: seq<C.Transfer>, k: nat)
    requires OnlyDownloads(l) && k < |l|
    ensures l[k].kind == C.Download && forall t: C.Transfer | t.kind == C.Download :: OnlyDownloads(l[k := t])
  {
    assert l[k] in l;
  }

  lemma KindsCons(l: seq<C.Transfer>, t: C.Transfer)
    requires OnlyDownloads(l) && t.kind == C.Download
    ensures OnlyDownloads([t] + l)
  {}

  /** The handlers that change an entry of the list. */
  lemma UpdateKinds(c: C.Clt, m: Msg, env: C.Env)
    requires OnlyDownloads(c.transfers)
    ensures OnlyDownloads(C.OnGetFile(c, m, env).0.transfers) && OnlyDownloads(C.OnFileData(c, m, env).0.transfers)
    ensures OnlyDownloads(C.OnOfferRes(c, m, env).0.transfers)
    ensures C.OnGetFile(c, m, env).0.pubkey == C.OnFileData(c, m, env).0.pubkey == c.pubkey
    ensures C.OnOfferRes(c, m, env).0.pubkey == c.pubkey
  {
    hide Attrs, C.FindTransfer, C.Renamed, C.GetFile, C.FileData, U64Of, ErrorResponse, OnlyDownloads, C.Overwritten;
    var l := Attrs(m);
    if C.AttrAt(l, 0, OFFERID).Some? {
      var oid := U64Of(l[0].val);
      var k := C.FindTransfer(c.transfers, C.Offer, m.src, oid);
      var k' := C.FindTransfer(c.transfers, C.Download, m.src, oid);
      if k < |c.transfers| {
        KindsUpdate(c.transfers, k);
        assert false;
      }
      if k' < |c.transfers| { KindsUpdate(c.transfers, k'); }
    }
  }

  lemma OfferKinds(c: C.Clt, m: Msg, env: C.Env)
    requires OnlyDownloads(c.transfers)
    ensures OnlyDownloads(C.OnOffer(c, m, env).0.transfers) && C.OnOffer(c, m, env).0.pubkey == c.pubkey
  {
    var d := C.NewDownload(m, env);
    O.ReadOfferKeeps(C.Transfer(C.Download, m.src, 0, None, None, 0, 0, None, env.now), Attrs(m));
    KindsCons(c.transfers, d);
    KindsCons(c.transfers, C.Invalidated(d));
    hide Attrs, C.NewDownload, C.ReadOffer, ErrorResponse, OnlyDownloads, AddAttr;
  }

  lemma HandleKinds(c: C.Clt, m: Msg, env: C.Env)
    requires OnlyDownloads(c.transfers)
    ensures var c' := C.Handle(c, m, env).0; c'.pubkey == c.pubkey && OnlyDownloads(c'.transfers)
  {
    hide Attrs, C.OnGetFile, C.OnFileData, C.OnOfferRes, C.OnOffer, OnlyDownloads, C.AuthRequest, Msg.Fits, AddAttr;
    UpdateKinds(c, m, env);
    OfferKinds(c, m, env);
  }

  lemma StaysModest(c: C.Clt, m: Msg, env: C.Env)
    requires Modest(c)
    ensures Modest(C.ProcessSrvMsg(c, m, env))
  {
    NothingOffered(c, m, env);
    L.ClientDies(c, m, env);
    var k := C.FindPending(c.pending, m);
    HandleKinds(c, m, env);
    if k < |c.pending| { HandleKinds(c.(pending := c.pending[..k] + c.pending[k + 1..]), m, env); }
    hide L.TooMuch, L.KeyTooLong, C.Handle, C.FindPending, OnlyDownloads;
  }

  lemma {:induction false} EatsModestly(c: C.Clt, down: seq<Msg>, envs: seq<C.Env>)
    requires |envs| == |down| && Modest(c)
    ensures Modest(Eat(c, down, envs))
    decreases |down|
  {
    hide C.ProcessSrvMsg;
    if down != [] {
      StaysModest(c, down[0], envs[0]);
      assert !c.dead;
      hide Modest;
      EatsModestly(C.ProcessSrvMsg(c, down[0], envs[0]), down[1..], envs[1..]);
    }
  }

  /** The user does not offer files or set a longer password, nor end the client. */
  ghost predicate ModestAct(a: Act) { a.User? ==> Modest(a.clt) }

  lemma StepModest(s: Sys, a: Act, s': Sys, fd: nat, lfd: int, cfg: Config)
    requires SysStep(s, a, s', fd, lfd, cfg) && Modest(s.clt) && ModestAct(a)
    ensures Modest(s'.clt)
  {
    if a.ClientRead? { StaysModest(s.clt, s.down[0], a.cenv); }
    hide C.ProcessSrvMsg, ProcessMsg, WriteAt, ServerSpec.Step;
  }

  lemma {:induction false} RunModest(r: seq<Sys>, acts: seq<Act>, fd: nat, lfd: int, cfg: Config, k: nat)
    requires SysRun(r, acts, fd, lfd, cfg) && Modest(r[0].clt) && (forall a <- acts :: ModestAct(a)) && k <= |acts|
    ensures Modest(r[k].clt)
  {
    hide SysStep, Modest;
    if k > 0 {
      assert acts[k - 1] in acts;
      RunModest(r, acts, fd, lfd, cfg, k - 1);
      assert SysStep(r[k - 1], acts[k - 1], r[k], fd, lfd, cfg);
      StepModest(r[k - 1], acts[k - 1], r[k], fd, lfd, cfg);
    }
  }

  /** Such a client never ends, and agrees with the server about its login in every reachable state. */
  lemma AgreementUnconditional(r: seq<Sys>, acts: seq<Act>, fd: nat, lfd: int, cfg: Config, k: nat, envs: seq<C.Env>)
    requires SysRun(r, acts, fd, lfd, cfg) && Connected(r[0], fd, lfd) && SoundRun(r) && k <= |acts|
    requires Modest(r[0].clt) && forall a <- acts :: ModestAct(a)
    ensures !r[k].clt.dead && FindFd(r[k].srv.c, fd) < |r[k].srv.c|
    ensures |envs| == |Down(r[k], fd)| ==> Eat(r[k].clt, Down(r[k], fd), envs).st == Slot(r[k], fd).st
  {
    RunModest(r, acts, fd, lfd, cfg, k);
    hide SysStep, Connected;
    assert !r[k].clt.dead;
    LoginAgreementHolds(r, acts, fd, lfd, cfg, k, envs);
    if |envs| == |Down(r[k], fd)| { EatsModestly(r[k].clt, Down(r[k], fd), envs); }
    hide Eat, FindFd;
  }
}
