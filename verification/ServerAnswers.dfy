/** What the server answers, in numbers: every message to it, and every message through it, with the types, codes
    and attributes that go over the wire. */
module ServerAnswers {
  import opened Bytes
  import opened Message
  import opened Channel
  import opened UserFile
  import opened UserDb
  import opened ServerSpec
  import opened ServerInv
  import opened ServerIds
  import opened ServerAuth
  import ServerRuns

  // ----- words for answers -----

  /** The message `x` waits behind the others for slot `k`, whose descriptor is in the write set. */
  function With(s: Srv, k: nat, x: Msg): Srv
    requires k < |s.c|
  {
    s.(c := s.c[k := s.c[k].(tx := Tx(s.c[k].tx.q + [x], s.c[k].tx.off))], wfds := s.wfds + {s.c[k].fd})
  }

  /** Whom the server takes for the sender. */
  function Sender(c: Client, m: Msg): u64 { if c.st.LoginOk? || c.st.AuthOk? then c.id else m.src }

  /** `r` goes back to the sender of `m`, in the place of the addressee, with the type `t`. */
  predicate Returns(r: Msg, t: u16, m: Msg, sender: u64) {
    r.mtype == t && r.dst == sender && r.src == m.dst && r.trf == m.trf
  }

  /** The type of an error about a message of type `t`. */
  function ErrorOf(t: u16): u16 { t - t % 16 + 0xa }

  /** The first attribute says OK. */
  predicate SaysOk(r: Msg) { Attrs(r) != [] && Attrs(r)[0] == Attr(0x0041, []) }

  /** The first attribute is an error with this code. */
  predicate Says(r: Msg, code: u64) { Attrs(r) != [] && Attrs(r)[0] == Attr(0x0042, Be(code, 8)) }

  predicate Refuses(r: Msg, m: Msg, sender: u64, code: u64) {
    Returns(r, ErrorOf(m.mtype), m, sender) && Says(r, code)
  }

  /** The first attribute has this type and this text. */
  predicate Leads(m: Msg, t: u16, text: seq<byte>) {
    Attrs(m) != [] && Attrs(m)[0].t == t && UpToNul(Attrs(m)[0].val, text)
  }

  predicate LeadsWith(m: Msg, t: u16) { Attrs(m) != [] && Attrs(m)[0].t == t }

  lemma LeadIs(m: Msg, t: u16, text: seq<byte>)
    requires Leads(m, t, text)
    ensures First(m, t).Some? && CStr(First(m, t).value) == text
  {
    TextIs(Attrs(m)[0].val, text);
    hide Attrs, CStr;
  }

  // ----- the server's own words -----

  lemma OkIs(m: Msg, env: Env)
    ensures SaysOk(ServerSpec.Ok(m, env)) && Returns(ServerSpec.Ok(m, env), m.mtype - m.mtype % 16 + 2, m, m.src)
  {
    hide EncAttr, Tlv;
    var a, b := Attr(OK, []), Attr(NOTICE, env.text + [0]);
    TlvOfEncAttr(a, EncAttr(b));
    assert ServerSpec.Ok(m, env).pay == EncAttr(a) + EncAttr(b);
  }

  lemma ErrIs(m: Msg, ec: u64, env: Env)
    ensures Refuses(Err(m, ec, env), m, m.src, ec)
  {
    hide EncAttr, Tlv, Be;
    var a, b := Attr(ERROR, Be(ec, 8)), Attr(NOTICE, env.text + [0]);
    TlvOfEncAttr(a, EncAttr(b));
    assert Err(m, ec, env).pay == EncAttr(a) + EncAttr(b);
  }

  lemma PongIs(m: Msg, env: Env)
    ensures var r := AddAttr(Response(m, env.ts), OK, []);
            SaysOk(r) && Returns(r, m.mtype - m.mtype % 16 + 2, m, m.src)
  {
    hide EncAttr, Tlv;
    var a := Attr(OK, []);
    TlvOfEncAttr(a, []);
    assert AddAttr(Response(m, env.ts), OK, []).pay == EncAttr(a) + [];
  }

  /** What is appended to a queue. */
  lemma WithIs(s: Srv, k: nat, x: Msg)
    requires k < |s.c|
    ensures EnqueueAt(s, k, x) == With(s, k, x)
  {}

  lemma StampIs(c: Client, m: Msg)
    ensures var x := Stamp(c, m); x == m.(src := Sender(c, m)) && Attrs(x) == Attrs(m)
    ensures forall t :: First(Stamp(c, m), t) == First(m, t)
  {}

  // ----- messages to other clients -----

  /** A message to a peer, of a type that travels: it arrives there, stamped with its sender, and nothing else
      happens. */
  lemma Delivers(s: Srv, i: nat, m: Msg, env: Env, k: nat)
    requires UniquePeers(s.c) && i < |s.c| && s.c[i].Peer() && k < |s.c| && s.c[k].Peer() && s.c[k].id == m.dst
    requires m.dst != 0 && m.dst != 0xFFFF_FFFF_FFFF_FFFF
    requires m.mtype in {0x0110, 0x0111, 0x0112, 0x011a, 0x0121, 0x0122, 0x012a, 0x0200, 0x0201, 0x0202, 0x020a}
    ensures ProcessMsg(s, i, m, env) == With(s, k, m.(src := s.c[i].id))
  {
    WithIs(s, k, m.(src := s.c[i].id));
    PeerIs(s.c, m.dst, k);
    hide EnqueueAt, With;
  }

  lemma PeerIs(c: seq<Client>, id: u64, k: nat)
    requires UniquePeers(c) && k < |c| && c[k].Peer() && c[k].id == id
    ensures FindPeer(c, id) == k
  {
    assert forall j | 0 <= j < k && c[j].Peer() :: c[j].id != c[k].id;
    var f := FindPeer(c, id);
    assert f <= k;
  }

  /** Nothing else travels: a request of any other type is refused as bad, the rest is dropped. */
  lemma DeliversNothingElse(s: Srv, i: nat, m: Msg, env: Env, k: nat) returns (r: Msg)
    requires i < |s.c| && s.c[i].Peer() && k < |s.c| && s.c[k].Peer() && s.c[k].id == m.dst
    requires m.dst != 0 && m.dst != 0xFFFF_FFFF_FFFF_FFFF
    requires m.mtype !in {0x0110, 0x0111, 0x0112, 0x011a, 0x0121, 0x0122, 0x012a, 0x0200, 0x0201, 0x0202, 0x020a}
    ensures ProcessMsg(s, i, m, env) == if m.mtype % 16 == 1 then With(s, i, r) else s
    ensures Refuses(r, m, s.c[i].id, 400)
  {
    var m' := m.(src := s.c[i].id);
    r := Err(m', 400, env);
    ErrIs(m', 400, env);
    WithIs(s, i, r);
    assert FindPeer(s.c, m.dst) < |s.c| by { FoundSome(s.c, m.dst, k); }
    hide EnqueueAt, With, Err, Attrs;
  }

  lemma FoundSome(c: seq<Client>, id: u64, k: nat)
    requires k < |c| && c[k].Peer() && c[k].id == id
    ensures FindPeer(c, id) < |c|
  {}

  /** Without such a peer, to everybody, or from a client that is not logged in, nothing travels at all. */
  lemma DeliversNot(s: Srv, i: nat, m: Msg, env: Env) returns (r: Msg, code: u64)
    requires i < |s.c| && s.c[i].Open() && m.dst != 0
    requires || m.dst == 0xFFFF_FFFF_FFFF_FFFF || !s.c[i].st.AuthOk?
             || forall k | 0 <= k < |s.c| :: !(s.c[k].Peer() && s.c[k].id == m.dst)
    ensures code == if !s.c[i].st.AuthOk? then 403 else if m.dst == 0xFFFF_FFFF_FFFF_FFFF then 501 else 421
    ensures Refuses(r, m, Sender(s.c[i], m), code)
    ensures ProcessMsg(s, i, m, env) == if code == 501 && m.mtype % 16 != 1 then s else With(s, i, r)
  {
    var m' := m.(src := Sender(s.c[i], m));
    StampIs(s.c[i], m);
    code := if !s.c[i].st.AuthOk? then 403 else if m.dst == 0xFFFF_FFFF_FFFF_FFFF then 501 else 421;
    r := Err(m', code, env);
    ErrIs(m', code, env);
    WithIs(s, i, r);
    hide EnqueueAt, With, Err, Attrs;
  }

  // ----- messages to the server -----

  /** Who is not logged in may only LOGIN, AUTH and REGISTER; a PING is answered; what the server does not know is
      refused if it is a request, and dropped otherwise. */
  lemma OtherAnswers(s: Srv, i: nat, m: Msg, env: Env) returns (r: Msg)
    requires i < |s.c| && s.c[i].Open() && m.dst == 0
    requires if s.c[i].st.AuthOk? then m.mtype !in {0x0011, 0x0021, 0x0031, 0x0041, 0x0051, 0x00a1}
             else m.mtype !in {0x0011, 0x0021, 0x0041}
    ensures var sender := Sender(s.c[i], m);
            if !s.c[i].st.AuthOk? then Refuses(r, m, sender, 403)
            else if m.mtype == 0x0201 then Returns(r, 0x0202, m, sender) && SaysOk(r)
            else Refuses(r, m, sender, 418)
    ensures ProcessMsg(s, i, m, env)
         == if s.c[i].st.AuthOk? && m.mtype % 16 != 1 then s else With(s, i, r)
  {
    hide EnqueueAt, With, Err, Attrs, AddAttr;
    var m' := m.(src := Sender(s.c[i], m));
    StampIs(s.c[i], m);
    r := if !s.c[i].st.AuthOk? then Err(m', 403, env)
         else if m.mtype == 0x0201 then AddAttr(Response(m', env.ts), OK, [])
         else Err(m', 418, env);
    ErrIs(m', 403, env);
    ErrIs(m', 418, env);
    PongIs(m', env);
    WithIs(s, i, r);
  }

  /** LOGOUT: the slot is as it was when it connected. */
  lemma LogoutAnswers(s: Srv, i: nat, m: Msg, env: Env) returns (r: Msg)
    requires i < |s.c| && s.c[i].Peer() && m.dst == 0 && m.mtype == 0x0031
    ensures Returns(r, 0x0032, m, s.c[i].id) && SaysOk(r)
    ensures ProcessMsg(s, i, m, env)
         == With(s.(c := s.c[i := s.c[i].(st := PreLogin, id := 0, name := None, key := None)]), i, r)
  {
    var m' := m.(src := s.c[i].id);
    r := ServerSpec.Ok(m', env);
    OkIs(m', env);
    var s1 := s.(c := s.c[i := s.c[i].(st := PreLogin, id := 0, name := None, key := None)]);
    WithIs(s1, i, r);
    hide EnqueueAt, With, ServerSpec.Ok, Attrs;
  }

  // ----- LOGIN -----

  /** The same letter, in whatever case. */
  predicate SameLetter(a: byte, b: byte) {
    || a == b
    || (65 <= a <= 90 && b == a + 32)
    || (65 <= b <= 90 && a == b + 32)
  }

  predicate SameName(a: seq<byte>, b: seq<byte>) { |a| == |b| && forall k | 0 <= k < |a| :: SameLetter(a[k], b[k]) }

  /** Some connection goes by that name, in whatever case. */
  predicate Taken(c: seq<Client>, name: seq<byte>) {
    exists j | 0 <= j < |c| :: c[j].fd >= 0 && c[j].name.Some? && SameName(c[j].name.value, name)
  }

  lemma LetterIs(a: byte, b: byte)
    ensures SameLetter(a, b) <==> Lower(a) == Lower(b)
  {}

  lemma NameIs(a: seq<byte>, b: seq<byte>)
    ensures SameName(a, b) <==> SameNoCase(a, b)
  {
    if |a| == |b| {
      forall k | 0 <= k < |a|
        ensures SameLetter(a[k], b[k]) <==> Lower(a[k]) == Lower(b[k])
      {
        LetterIs(a[k], b[k]);
      }
    }
    hide SameLetter, Lower;
  }

  lemma TakenIs(c: seq<Client>, name: seq<byte>)
    ensures Taken(c, name) <==> NameInUse(c, name)
  {
    forall a
      ensures SameName(a, name) <==> SameNoCase(a, name)
    {
      NameIs(a, name);
    }
    hide SameName, SameNoCase;
    if Taken(c, name) {
      var j :| 0 <= j < |c| && c[j].fd >= 0 && c[j].name.Some? && SameName(c[j].name.value, name);
      assert Uses(c[j], name);
    }
    if NameInUse(c, name) {
      var j :| 0 <= j < |c| && Uses(c[j], name);
      assert SameName(c[j].name.value, name);
    }
  }

  /** LOGIN under a name that is not registered: refused if and only if the name is taken, in whatever case, and
      then the slot is as before; otherwise the client is logged in under that name, with the id of the counter. */
  lemma GuestAnswers(s: Srv, i: nat, m: Msg, env: Env, name: seq<byte>) returns (r: Msg)
    requires i < |s.c| && s.c[i].Open() && s.c[i].st.PreLogin? && m.dst == 0 && m.mtype == 0x0011
    requires Leads(m, 0x0001, name) && LookupName(s.db, name).1.None?
    ensures var s' := ProcessMsg(s, i, m, env);
            var (d, id) := (LookupName(s.db, name).0, GetTempId(LookupName(s.db, name).0).1);
            if Taken(s.c, name) then
              Refuses(r, m, m.src, 409) && s' == With(s.(db := d), i, r)
            else
              && Returns(r, 0x0012, m, m.src) && SaysOk(r)
              && s' == With(s.(db := GetTempId(d).0,
                               c := s.c[i := s.c[i].(st := AuthOk, id := id, name := Some(name), key := None)]), i, r)
  {
    hide LookupName, GetTempId, NameInUse, Taken, First, CStr, ServerSpec.Ok, Err, Attrs, With, EnqueueAt;
    TakenIs(s.c, name);
    LeadIs(m, USERNAME, name);
    StampIs(s.c[i], m);
    var d := LookupName(s.db, name).0;
    if Taken(s.c, name) {
      r := Err(m, 409, env);
      ErrIs(m, 409, env);
      WithIs(s.(db := d), i, r);
    } else {
      r := ServerSpec.Ok(m, env);
      OkIs(m, env);
      var x := s.c[i].(st := AuthOk, id := GetTempId(d).1, name := Some(name), key := None);
      WithIs(s.(db := GetTempId(d).0, c := s.c[i := x]), i, r);
    }
  }

  /** "plain-text " */
  const PREFIX: seq<byte> := [112, 108, 97, 105, 110, 45, 116, 101, 120, 116, 32]

  lemma PrefixIs()
    ensures PLAINTEXT == PREFIX
  {}

  /** LOGIN under a registered name: the client is challenged if the stored key has the prefix, and refused
      otherwise; it has the id and the name of the account then in any case. */
  lemma AccountAnswers(s: Srv, i: nat, m: Msg, env: Env, u: Entry) returns (r: Msg)
    requires i < |s.c| && s.c[i].Open() && s.c[i].st.PreLogin? && m.dst == 0 && m.mtype == 0x0011
    requires Leads(m, 0x0001, u.name) && LookupName(s.db, u.name).1 == Some(u)
    ensures var s1 := s.(db := LookupName(s.db, u.name).0);
            var x := s.c[i].(st := LoginOk, id := u.id, name := Some(u.name));
            if PREFIX <= u.key then
              && Returns(r, 0x0012, m, m.src) && Attrs(r) == [Attr(0x0003, PREFIX + [0])]
              && ProcessMsg(s, i, m, env) == With(s1.(c := s.c[i := x.(key := Some(u.key))]), i, r)
            else
              Refuses(r, m, m.src, 405) && ProcessMsg(s, i, m, env) == With(s1.(c := s.c[i := x]), i, r)
  {
    hide LookupName, GetTempId, NameInUse, First, CStr, Err, Attrs, With, EnqueueAt, AddAttr, Response;
    PrefixIs();
    LeadIs(m, USERNAME, u.name);
    StampIs(s.c[i], m);
    var s1 := s.(db := LookupName(s.db, u.name).0);
    var x := s.c[i].(st := LoginOk, id := u.id, name := Some(u.name));
    if PREFIX <= u.key {
      r := AddAttr(Response(m, env.ts), CHALLENGE, PLAINTEXT + [0]);
      ChallengeIs(m, env);
      WithIs(s1.(c := s.c[i := x.(key := Some(u.key))]), i, r);
    } else {
      r := Err(m, 405, env);
      ErrIs(m, 405, env);
      WithIs(s1.(c := s.c[i := x]), i, r);
    }
  }

  lemma ChallengeIs(m: Msg, env: Env)
    requires m.mtype == 0x0011
    ensures var r := AddAttr(Response(m, env.ts), CHALLENGE, PLAINTEXT + [0]);
            Returns(r, 0x0012, m, m.src) && Attrs(r) == [Attr(0x0003, PREFIX + [0])]
  {
    hide EncAttr;
    PrefixIs();
    var a := Attr(CHALLENGE, PREFIX + [0]);
    TlvOfEncAttr(a, []);
    assert Tlv([]) == [];
    assert AddAttr(Response(m, env.ts), CHALLENGE, PLAINTEXT + [0]).pay == EncAttr(a) + [];
    hide Tlv;
    assert [a] + [] == [a];
  }

  /** A LOGIN from a client that is on its way in, or without a name in front, is refused and changes nothing. */
  lemma BadLoginAnswers(s: Srv, i: nat, m: Msg, env: Env) returns (r: Msg)
    requires i < |s.c| && s.c[i].Open() && m.dst == 0 && m.mtype == 0x0011
    requires !s.c[i].st.PreLogin? || !LeadsWith(m, 0x0001)
    ensures Refuses(r, m, Sender(s.c[i], m), 400) && ProcessMsg(s, i, m, env) == With(s, i, r)
  {
    var m' := m.(src := Sender(s.c[i], m));
    r := Err(m', 400, env);
    ErrIs(m', 400, env);
    StampIs(s.c[i], m);
    WithIs(s, i, r);
    hide With, EnqueueAt, Err, Attrs;
  }

  // ----- AUTH -----

  /** AUTH with the right digest: authenticated, and every other connection with that id is closed. */
  lemma RightDigestAnswers(s: Srv, i: nat, m: Msg, env: Env, key: seq<byte>) returns (r: Msg)
    requires i < |s.c| && s.c[i].Open() && s.c[i].st.LoginOk? && s.c[i].key == Some(key)
    requires m.dst == 0 && m.mtype == 0x0021 && Leads(m, 0x0004, key)
    ensures Returns(r, 0x0022, m, s.c[i].id) && SaysOk(r)
    ensures var s' := ProcessMsg(s, i, m, env);
            && |s'.c| == |s.c| && s'.db == s.db && s'.dead == s.dead
            && s'.c[i] == s.c[i].(st := AuthOk, tx := Tx(s.c[i].tx.q + [r], s.c[i].tx.off))
            && forall j | 0 <= j < |s.c| && j != i ::
                 if s.c[j].fd >= 0 && s.c[j].id == s.c[i].id then s'.c[j].fd < 0 else s'.c[j] == s.c[j]
  {
    hide First, CStr, ServerSpec.Ok, Attrs, CloseDoomed, Err;
    var m' := m.(src := s.c[i].id);
    r := ServerSpec.Ok(m', env);
    OkIs(m', env);
    LeadIs(m, DIGEST, key);
    StampIs(s.c[i], m);
    CloseDoomedSpares(s, i, s.c[i].id);
  }

  /** Any other AUTH is refused and leads back to where LOGIN started. */
  lemma BadAuthAnswers(s: Srv, i: nat, m: Msg, env: Env) returns (r: Msg, code: u64)
    requires i < |s.c| && s.c[i].Open() && m.dst == 0 && m.mtype == 0x0021
    requires s.c[i].st.LoginOk? && LeadsWith(m, 0x0004)
             ==> s.c[i].key.Some? && !UpToNul(Attrs(m)[0].val, s.c[i].key.value)
    ensures code == if s.c[i].st.LoginOk? && LeadsWith(m, 0x0004) then 401 else 400
    ensures Refuses(r, m, Sender(s.c[i], m), code)
    ensures ProcessMsg(s, i, m, env) == With(s.(c := s.c[i := s.c[i].(st := PreLogin)]), i, r)
  {
    hide With, EnqueueAt, Err, Attrs, CStr, CloseDoomed, ServerSpec.Ok, Refuses;
    var m' := m.(src := Sender(s.c[i], m));
    code := if s.c[i].st.LoginOk? && LeadsWith(m, 0x0004) then 401 else 400;
    r := Err(m', code, env);
    ErrIs(m', code, env);
    StampIs(s.c[i], m);
    if LeadsWith(m, 0x0004) { CutIs(Attrs(m)[0].val); }
    WithIs(s.(c := s.c[i := s.c[i].(st := PreLogin)]), i, r);
    RefusesAs(r, m', m, m'.src, code);
  }

  /** A refusal does not depend on what the sender wrote as its id. */
  lemma RefusesAs(r: Msg, m': Msg, m: Msg, sender: u64, code: u64)
    requires Refuses(r, m', sender, code) && m' == m.(src := m'.src)
    ensures Refuses(r, m, sender, code)
  {
    hide Attrs;
  }

  // ----- the list of peers -----

  /** How many clients before slot `k` are logged in, and the octets it takes to list them. */
  function PeersBefore(c: seq<Client>, k: nat): nat
    requires k <= |c|
  {
    if k == 0 then 0 else PeersBefore(c, k - 1) + if c[k - 1].Peer() then 1 else 0
  }

  function OctetsBefore(c: seq<Client>, k: nat): nat
    requires k <= |c|
  {
    if k == 0 then 0
    else OctetsBefore(c, k - 1) + if c[k - 1].Peer() then 24 + (|NameOf(c[k - 1])| + 8) / 8 * 8 else 0
  }

  lemma {:induction false} BeforePrefix(c: seq<Client>, k: nat)
    requires c != [] && k < |c|
    ensures PeersBefore(c, k) == PeersBefore(c[..|c| - 1], k) && OctetsBefore(c, k) == OctetsBefore(c[..|c| - 1], k)
  {
    if k > 0 { BeforePrefix(c, k - 1); }
  }

  lemma {:induction false} PeersGrow(c: seq<Client>, k: nat, n: nat)
    requires k <= n <= |c|
    ensures PeersBefore(c, k) <= PeersBefore(c, n)
  {
    if k < n { PeersGrow(c, k, n - 1); }
  }

  /** The attributes, two for each peer in slot order. */
  lemma {:induction false} PeerAttrsAt(c: seq<Client>)
    ensures var l := PeerAttrs(c);
            && |l| == 2 * PeersBefore(c, |c|)
            && forall k | 0 <= k < |c| && c[k].Peer() ::
                 var n := PeersBefore(c, k);
                 && 2 * n + 1 < |l|
                 && l[2 * n] == Attr(0x0010, Be(c[k].id, 8)) && l[2 * n + 1] == Attr(0x0011, NameOf(c[k]) + [0])
  {
    hide Be, NameOf;
    if c != [] {
      var z := |c| - 1;
      var c0 := c[..z];
      PeerAttrsAt(c0);
      BeforePrefix(c, z);
      var l0, l := PeerAttrs(c0), PeerAttrs(c);
      assert l0 <= l;
      forall k | 0 <= k < |c| && c[k].Peer()
        ensures var n := PeersBefore(c, k);
                && 2 * n + 1 < |l|
                && l[2 * n] == Attr(0x0010, Be(c[k].id, 8)) && l[2 * n + 1] == Attr(0x0011, NameOf(c[k]) + [0])
      {
        if k < z {
          assert c0[k] == c[k];
          BeforePrefix(c, k);
        }
      }
    }
  }

  lemma {:induction false} PeerOctets(c: seq<Client>)
    ensures |EncAttrs(PeerAttrs(c))| == OctetsBefore(c, |c|)
  {
    hide Be, NameOf, EncAttr;
    if c != [] {
      var z := |c| - 1;
      PeerOctets(c[..z]);
      BeforePrefix(c, z);
      var l := PeerAttrs(c[..z]);
      if c[z].Peer() {
        var a, b := Attr(PEERID, Be(c[z].id, 8)), Attr(PEERNAME, NameOf(c[z]) + [0]);
        assert l + [a, b] == (l + [a]) + [b];
        EncAttrsSnoc(l, a);
        EncAttrsSnoc(l + [a], b);
        hide EncAttrs;
      }
    }
  }

  /** PEERLIST: every client that is logged in, itself included, in slot order with its id and its name; if that is
      more than one message carries, the server ends. */
  lemma PeerlistAnswers(s: Srv, i: nat, m: Msg, env: Env) returns (r: Msg)
    requires i < |s.c| && s.c[i].Peer() && m.dst == 0 && m.mtype == 0x00a1
    ensures OctetsBefore(s.c, |s.c|) > 65400 ==> ProcessMsg(s, i, m, env) == s.(dead := true)
    ensures OctetsBefore(s.c, |s.c|) <= 65400 ==>
              ProcessMsg(s, i, m, env) == With(s, i, r) && Returns(r, 0x00a2, m, s.c[i].id)
              && |Attrs(r)| == 2 * PeersBefore(s.c, |s.c|)
              && forall k | 0 <= k < |s.c| && s.c[k].Peer() ::
                   var n := PeersBefore(s.c, k);
                   && 2 * n + 1 < |Attrs(r)| && Attrs(r)[2 * n] == Attr(0x0010, Be(s.c[k].id, 8))
                   && Attrs(r)[2 * n + 1] == Attr(0x0011, NameOf(s.c[k]) + [0])
  {
    hide EnqueueAt, With, EncAttrs, EncAttr, PeerAttrs, Be, NameOf, Tlv, OctetsBefore, PeersBefore;
    var m' := m.(src := s.c[i].id);
    r := Response(m', env.ts).(pay := EncAttrs(PeerAttrs(s.c)));
    PeerOctets(s.c);
    PeerAttrsAt(s.c);
    WithIs(s, i, r);
    if OctetsBefore(s.c, |s.c|) <= 65400 {
      ServerRuns.EncodedLength(PeerAttrs(s.c));
      EncodeDecode(PeerAttrs(s.c));
    }
  }

  // ----- notices -----

  /** What the server answers to `m` is nothing, OK or an error in its own words, or one of three other things. */
  ghost predicate Worded(r: Option<Msg>, m: Msg, env: Env) {
    || r.None? || r == Some(ServerSpec.Ok(m, env)) || (exists ec: u64 :: r == Some(Err(m, ec, env)))
    || (m.mtype == 0x0201 && r.value.mtype % 16 == 2)
    || (m.mtype == 0x00a1 && r.value.mtype % 16 == 2)
    || (m.mtype == 0x0011 && r == Some(AddAttr(Response(m, env.ts), CHALLENGE, PLAINTEXT + [0])))
  }

  lemma ServerWords(s: Srv, i: nat, m: Msg, env: Env)
    requires i < |s.c|
    ensures Worded(ServerMsg(s, i, m, env).1, m, env)
  {
    hide ServerSpec.Ok, Err, AddAttr, DropEntry, AddEntry, LookupName, GetTempId, NameInUse, First, CStr, CloseDoomed;
    hide EncAttrs, PeerAttrs;
    assert AddAttr(Response(m, env.ts), OK, []).mtype == ToRes(m.mtype) by { PongType(m, env); }
    assert ToRes(m.mtype) % 16 == 2 by { ResClass(m.mtype); }
  }

  lemma PongType(m: Msg, env: Env)
    ensures AddAttr(Response(m, env.ts), OK, []).mtype == ToRes(m.mtype)
  {}

  lemma ResClass(t: u16)
    ensures ToRes(t) % 16 == 2
  {}

  /** Every error, and every OK but that to a PING, comes with the text meant for it. */
  lemma NoticesGo(s: Srv, i: nat, m: Msg, env: Env)
    requires i < |s.c| && env.Ok()
    ensures var r := Dispatch(s, i, m, env).1;
            r.Some? && (r.value.mtype % 16 == 0xa || (SaysOk(r.value) && m.mtype !in {0x0201, 0x00a1}))
            ==> |Attrs(r.value)| == 2 && Attrs(r.value)[1] == Attr(0x0043, env.text + [0])
  {
    hide ServerMsg, ServerSpec.Ok, Err, FindPeer, EnqueueAt, Forwardable, Attrs;
    ServerWords(s, i, m, env);
    var r := Dispatch(s, i, m, env).1;
    assert Worded(r, m, env);
    hide Dispatch;
    if r.Some? && (r.value.mtype % 16 == 0xa || (SaysOk(r.value) && m.mtype !in {0x0201, 0x00a1})) {
      WordsNoticed(r, m, env);
    }
  }

  lemma WordsNoticed(r: Option<Msg>, m: Msg, env: Env)
    requires env.Ok() && Worded(r, m, env) && r.Some?
    requires r.value.mtype % 16 == 0xa || (SaysOk(r.value) && m.mtype !in {0x0201, 0x00a1})
    ensures |Attrs(r.value)| == 2 && Attrs(r.value)[1] == Attr(0x0043, env.text + [0])
  {
    hide ServerSpec.Ok, Err, AddAttr, Attrs;
    if r == Some(ServerSpec.Ok(m, env)) {
      var l := OkCarries(m, env);
    } else if ec: u64 :| r == Some(Err(m, ec, env)) {
      var l := ErrCarries(m, ec, env);
    } else if m.mtype == 0x0011 {
      ChallengeIs(m, env);
      ChallengeType(m, env);
    }
  }

  lemma ChallengeType(m: Msg, env: Env)
    requires m.mtype == 0x0011
    ensures AddAttr(Response(m, env.ts), CHALLENGE, PLAINTEXT + [0]).mtype == 0x0012
  {}

  lemma OkCarries(m: Msg, env: Env) returns (l: seq<Attr>)
    requires env.Ok()
    ensures l == [Attr(0x0041, []), Attr(0x0043, env.text + [0])] && Attrs(ServerSpec.Ok(m, env)) == l
  {
    hide EncAttr, Tlv;
    var a, b := Attr(OK, []), Attr(NOTICE, env.text + [0]);
    l := [a, b];
    Carried(a, b);
    assert ServerSpec.Ok(m, env).pay == EncAttr(a) + EncAttr(b);
  }

  lemma ErrCarries(m: Msg, ec: u64, env: Env) returns (l: seq<Attr>)
    requires env.Ok()
    ensures l == [Attr(0x0042, Be(ec, 8)), Attr(0x0043, env.text + [0])] && Attrs(Err(m, ec, env)) == l
  {
    hide EncAttr, Tlv, Be;
    var a, b := Attr(ERROR, Be(ec, 8)), Attr(NOTICE, env.text + [0]);
    l := [a, b];
    Carried(a, b);
    assert Err(m, ec, env).pay == EncAttr(a) + EncAttr(b);
  }

  lemma Carried(a: Attr, b: Attr)
    requires |a.val| < 0x1_0000 && |b.val| < 0x1_0000
    ensures Tlv(EncAttr(a) + EncAttr(b)) == [a, b]
  {
    hide EncAttr, Tlv;
    TlvOfEncAttr(a, EncAttr(b));
    TlvOfEncAttr(b, []);
    assert EncAttr(b) + [] == EncAttr(b) && Tlv([]) == [] by { TlvEmpty(); }
    assert [a] + ([b] + []) == [a, b];
  }
}
