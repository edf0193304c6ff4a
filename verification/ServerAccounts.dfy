/** REGISTER and DROP: what they answer, what is stored then, and that whoever has registered can log in. */
module ServerAccounts {
  import opened Bytes
  import opened Message
  import opened Channel
  import opened UserFile
  import opened UserDb
  import opened UserDbMap
  import opened UserNames
  import opened ServerSpec
  import opened ServerAnswers

  /** The account that REGISTER with the key `k` asks for. */
  function Wanted(c: Client, k: seq<byte>): Entry { Entry(c.id, NameOf(c), PREFIX + k) }

  // ----- REGISTER -----

  /** REGISTER of a client that is not logged in, or without a key in front, is refused and changes nothing. */
  lemma BadRegisterAnswers(s: Srv, i: nat, m: Msg, env: Env) returns (r: Msg, code: u64)
    requires i < |s.c| && s.c[i].Open() && m.dst == 0 && m.mtype == 0x0041
    requires !s.c[i].st.AuthOk? || !LeadsWith(m, 0x0002)
    ensures code == if !s.c[i].st.AuthOk? then 401 else 400
    ensures Refuses(r, m, Sender(s.c[i], m), code) && ProcessMsg(s, i, m, env) == With(s, i, r)
  {
    hide With, EnqueueAt, Err, Attrs, DropEntry, AddEntry, CStr, ServerSpec.Ok;
    var m' := m.(src := Sender(s.c[i], m));
    code := if !s.c[i].st.AuthOk? then 401 else 400;
    r := Err(m', code, env);
    ErrIs(m', code, env);
    RefusesAs(r, m', m, m'.src, code);
    StampIs(s.c[i], m);
    WithIs(s, i, r);
  }

  /** The two steps of REGISTER on the database. */
  lemma Stored(d: Db, id: u64, name: seq<byte>, key: seq<byte>, dropOk: bool, addOk: bool)
    requires Distinct(d.list) && id != 0
    ensures var d1 := DropEntry(d, name, dropOk).0;
            var (d2, added) := AddEntry(d1, id, name, key, addOk);
            && (added <==> HasStretch(name) && !ComesBack(d, name, dropOk))
            && (added ==> LookupName(d2, name).1 == Some(Entry(id, name, key)))
            && (!added && !ComesBack(d, name, dropOk) ==> LookupName(d2, name).1.None?)
            && (ComesBack(d, name, dropOk) ==> d2.list == LookupName(d1, name).0.list)
  {
    hide HasStretch, ComesBack, LookupName, AddEntry, DropEntry;
    DropsNames(d, name, dropOk);
    var d1 := DropEntry(d, name, dropOk).0;
    if LookupName(d1, name).1.None? {
      AddsNames(d1, id, name, key, addOk);
    } else {
      AddsNothing(d1, id, name, key, addOk);
    }
  }

  /** REGISTER with a key: refused as locked exactly for a name without a good stretch, and for an account that
      comes back from the file when it has been dropped; otherwise the account is stored, with the prefix, and found
      from then on. */
  lemma RegisterAnswers(s: Srv, i: nat, m: Msg, env: Env, k: seq<byte>) returns (r: Msg)
    requires i < |s.c| && s.c[i].Peer() && s.c[i].id != 0 && s.c[i].name.Some? && Distinct(s.db.list)
    requires m.dst == 0 && m.mtype == 0x0041 && Leads(m, 0x0002, k)
    ensures var s' := ProcessMsg(s, i, m, env);
            var (name, u) := (s.c[i].name.value, Wanted(s.c[i], k));
            var back := ComesBack(s.db, name, env.dropOk);
            && s' == With(s.(db := s'.db), i, r)
            && (if HasStretch(name) && !back then Returns(r, 0x0042, m, s.c[i].id) && SaysOk(r)
                else Refuses(r, m, s.c[i].id, 423))
            && (HasStretch(name) && !back ==> LookupName(s'.db, name).1 == Some(u))
            && (!back ==> (HasStretch(name) <==> LookupName(s'.db, name).1 == Some(u)))
  {
    hide With, EnqueueAt, Err, Attrs, First, CStr, ServerSpec.Ok;
    hide HasStretch, ComesBack, LookupName, AddEntry, DropEntry;
    PrefixIs();
    LeadIs(m, PUBKEY, k);
    StampIs(s.c[i], m);
    var c := s.c[i];
    Stored(s.db, c.id, NameOf(c), PREFIX + k, env.dropOk, env.addOk);
    var d1 := DropEntry(s.db, NameOf(c), env.dropOk).0;
    var (d2, added) := AddEntry(d1, c.id, NameOf(c), PREFIX + k, env.addOk);
    var m' := m.(src := c.id);
    r := if added then ServerSpec.Ok(m', env) else Err(m', 423, env);
    OkIs(m', env);
    ErrIs(m', 423, env);
    RegisterIs(s, i, m, env, k, r);
    RefusesAs(Err(m', 423, env), m', m, c.id, 423);
    hide ProcessMsg;
    assert ProcessMsg(s, i, m, env).db == d2 by { WithDb(s.(db := d2), i, r); }
  }

  lemma WithDb(s: Srv, i: nat, r: Msg)
    requires i < |s.c|
    ensures With(s, i, r).db == s.db
  {}

  lemma RegisterIs(s: Srv, i: nat, m: Msg, env: Env, k: seq<byte>, r: Msg)
    requires i < |s.c| && s.c[i].Peer() && m.dst == 0 && m.mtype == 0x0041
    requires First(m, PUBKEY).Some? && CStr(First(m, PUBKEY).value) == k
    requires var d1 := DropEntry(s.db, NameOf(s.c[i]), env.dropOk).0;
             var added := AddEntry(d1, s.c[i].id, NameOf(s.c[i]), PREFIX + k, env.addOk).1;
             var m' := m.(src := s.c[i].id);
             r == if added then ServerSpec.Ok(m', env) else Err(m', 423, env)
    ensures var d1 := DropEntry(s.db, NameOf(s.c[i]), env.dropOk).0;
            var d2 := AddEntry(d1, s.c[i].id, NameOf(s.c[i]), PREFIX + k, env.addOk).0;
            ProcessMsg(s, i, m, env) == With(s.(db := d2), i, r)
  {
    hide With, EnqueueAt, Err, Attrs, First, CStr, ServerSpec.Ok, AddEntry, DropEntry;
    PrefixIs();
    StampIs(s.c[i], m);
    var d1 := DropEntry(s.db, NameOf(s.c[i]), env.dropOk).0;
    var d2 := AddEntry(d1, s.c[i].id, NameOf(s.c[i]), PREFIX + k, env.addOk).0;
    WithIs(s.(db := d2), i, r);
  }

  /** The exception is real: an account that is registered once more with the same key, while the file cannot be
      written, comes back from the file; the server refuses, and what is stored is what was asked for. */
  lemma RefusedButStored(s: Srv, i: nat, m: Msg, env: Env, k: seq<byte>) returns (r: Msg)
    requires i < |s.c| && s.c[i].Peer() && s.c[i].id != 0 && s.c[i].name.Some?
    requires m.dst == 0 && m.mtype == 0x0041 && Leads(m, 0x0002, k) && !env.dropOk && !env.addOk
    requires var u := Wanted(s.c[i], k);
             && s.db.list == [u] && s.db.file == Some(Render([u])) && Storable(u) && NameIsValid(u.name)
    ensures var s' := ProcessMsg(s, i, m, env);
            Refuses(r, m, s.c[i].id, 423) && LookupName(s'.db, NameOf(s.c[i])).1 == Some(Wanted(s.c[i], k))
  {
    hide With, Leads, Refuses, Render, Storable, NameIsValid, HasStretch, SaysOk, Returns, ProcessMsg;
    var u := Wanted(s.c[i], k);
    Reloaded(s.db.nextId, [u], u);
    OnlyAccount(s.db, u);
    r := RegisterAnswers(s, i, m, env, k);
    assert ComesBack(s.db, u.name, false);
    BroughtBack(s, i, m, env, k, u);
  }

  lemma OnlyAccount(d: Db, u: Entry)
    requires d.list == [u]
    ensures LookupName(d, u.name) == (d, Some(u)) && DropEntry(d, u.name, false).0 == d.(list := [])
  {
    assert IndexOf([u], u.name) == 0 && [u][..0] + [u][1..] == [];
  }

  lemma BroughtBack(s: Srv, i: nat, m: Msg, env: Env, k: seq<byte>, u: Entry)
    requires i < |s.c| && s.c[i].Peer() && m.dst == 0 && m.mtype == 0x0041 && Leads(m, 0x0002, k)
    requires !env.dropOk && !env.addOk && u == Wanted(s.c[i], k) && s.db.list == [u]
    requires LookupName(Db([], s.db.nextId, s.db.file), u.name).1 == Some(u)
    ensures LookupName(ProcessMsg(s, i, m, env).db, u.name).1 == Some(u)
  {
    hide With, EnqueueAt, Err, Attrs, ServerSpec.Ok, NameIsValid, First, CStr;
    LeadIs(m, PUBKEY, k);
    OnlyAccount(s.db, u);
    var d1 := Db([], s.db.nextId, s.db.file);
    var added := AddEntry(d1, u.id, u.name, u.key, false).1;
    var m' := m.(src := s.c[i].id);
    RegisterIs(s, i, m, env, k, if added then ServerSpec.Ok(m', env) else Err(m', 423, env));
    AddsNothing(d1, u.id, u.name, u.key, false);
    KeptAsLoaded(d1, u.id, u.name, u.key);
    hide ProcessMsg, DropEntry, AddEntry;
    WithDb(s.(db := AddEntry(d1, u.id, u.name, u.key, false).0), i,
           if added then ServerSpec.Ok(m', env) else Err(m', 423, env));
  }

  lemma KeptAsLoaded(d: Db, id: u64, name: seq<byte>, key: seq<byte>)
    requires LookupName(d, name).1.Some?
    ensures LookupName(AddEntry(d, id, name, key, false).0, name).1 == LookupName(d, name).1
  {
    LoadSettles(d);
    hide LoadLines, NameIsValid;
  }

  // ----- DROP -----

  /** DROP: OK if and only if the name was registered; afterwards it is not, unless it comes back from the file. */
  lemma DropAnswers(s: Srv, i: nat, m: Msg, env: Env) returns (r: Msg)
    requires i < |s.c| && s.c[i].Peer() && s.c[i].name.Some? && Distinct(s.db.list) && m.dst == 0 && m.mtype == 0x0051
    ensures var s' := ProcessMsg(s, i, m, env);
            var name := s.c[i].name.value;
            && s' == With(s.(db := s'.db), i, r)
            && (if LookupName(s.db, name).1.Some? then Returns(r, 0x0052, m, s.c[i].id) && SaysOk(r)
                else Refuses(r, m, s.c[i].id, 404))
            && (LookupName(s'.db, name).1.Some? <==> ComesBack(s.db, name, env.dropOk))
  {
    hide With, EnqueueAt, Err, Attrs, ServerSpec.Ok, ComesBack, LookupName, DropEntry, Refuses, SaysOk, Returns;
    StampIs(s.c[i], m);
    var name := NameOf(s.c[i]);
    DropsNames(s.db, name, env.dropOk);
    var (d', dropped) := DropEntry(s.db, name, env.dropOk);
    var m' := m.(src := s.c[i].id);
    r := if dropped then ServerSpec.Ok(m', env) else Err(m', 404, env);
    OkIs(m', env);
    ErrIs(m', 404, env);
    RefusesAs(Err(m', 404, env), m', m, m'.src, 404);
    ReturnsAs(ServerSpec.Ok(m', env), 0x0052, m', m);
    WithIs(s.(db := d'), i, r);
    WithDb(s.(db := d'), i, r);
  }

  lemma ReturnsAs(r: Msg, t: u16, m': Msg, m: Msg)
    requires Returns(r, t, m', m'.src) && m' == m.(src := m'.src)
    ensures Returns(r, t, m, m'.src)
  {}

  // ----- who has registered can log in -----

  /** Once REGISTER has been answered with OK, whoever logs in from another connection under the name and presents
      the key, with the prefix, is authenticated as the account. */
  lemma RegisteredLogsIn(s: Srv, i: nat, j: nat, reg: Msg, login: Msg, auth: Msg, env: Env, k: seq<byte>)
    returns (r: Msg, challenge: Msg, welcome: Msg)
    requires i < |s.c| && s.c[i].Peer() && s.c[i].id != 0 && s.c[i].name.Some? && Distinct(s.db.list)
    requires HasStretch(NameOf(s.c[i])) && !ComesBack(s.db, NameOf(s.c[i]), env.dropOk)
    requires j < |s.c| && j != i && s.c[j].Open() && s.c[j].st.PreLogin?
    requires reg.dst == 0 && reg.mtype == 0x0041 && Leads(reg, 0x0002, k)
    requires login.dst == 0 && login.mtype == 0x0011 && Leads(login, 0x0001, NameOf(s.c[i]))
    requires auth.dst == 0 && auth.mtype == 0x0021 && Leads(auth, 0x0004, PREFIX + k)
    ensures SaysOk(r) && Attrs(challenge) == [Attr(0x0003, PREFIX + [0])] && SaysOk(welcome)
    ensures var s1 := ProcessMsg(s, i, reg, env);
            var s2 := ProcessMsg(s1, j, login, env);
            var s3 := ProcessMsg(s2, j, auth, env);
            && |s3.c| == |s.c| && s3.c[j].Peer() && s3.c[j].id == s.c[i].id && s3.c[j].name == s.c[i].name
            && s3.c[j].tx.q == s.c[j].tx.q + [challenge] + [welcome]
            && !s3.c[i].Open()
  {
    hide ProcessMsg, Leads, HasStretch, ComesBack, LookupName, Attrs, SaysOk, Refuses, Returns;
    r := RegisterAnswers(s, i, reg, env, k);
    var s1 := ProcessMsg(s, i, reg, env);
    var u := Wanted(s.c[i], k);
    assert s1.c[j] == s.c[j] && s1.c[i].Open() && s1.c[i].id == s.c[i].id;
    challenge := AccountAnswers(s1, j, login, env, u);
    var s2 := ProcessMsg(s1, j, login, env);
    assert s2.c[j].st.LoginOk? && s2.c[j].key == Some(u.key) && s2.c[i] == s1.c[i];
    welcome := RightDigestAnswers(s2, j, auth, env, u.key);
  }
}
