/** The list with its file behaves as a map from names to accounts, in memory and across a restart. */
module UserDbMap {
  import opened Bytes
  import opened Message
  import opened UserFile
  import opened UserDb

  type Accounts = map<seq<byte>, (u64, seq<byte>)>

  function MapOf(l: seq<Entry>): Accounts {
    if l == [] then map[] else MapOf(l[1..])[l[0].name := (l[0].id, l[0].key)]
  }

  ghost predicate Distinct(l: seq<Entry>) {
    forall i, j | 0 <= i < j < |l| :: l[i].name != l[j].name
  }

  lemma {:induction false} LookupIsMap(l: seq<Entry>, name: seq<byte>)
    ensures Lookup(l, name).Some? <==> name in MapOf(l)
    ensures name in MapOf(l) ==> MapOf(l)[name] == (Lookup(l, name).value.id, Lookup(l, name).value.key)
  {
    if l != [] { LookupIsMap(l[1..], name); }
  }

  lemma DistinctTail(l: seq<Entry>)
    requires l != [] && Distinct(l)
    ensures Distinct(l[1..]) && l[0].name !in MapOf(l[1..])
  {
    assert forall i | 0 <= i < |l[1..]| :: l[1..][i] == l[i + 1];
    LookupIsMap(l[1..], l[0].name);
  }

  lemma {:induction false} DropIsRemove(l: seq<Entry>, name: seq<byte>, k: nat)
    requires Distinct(l) && k < |l| && l[k].name == name
    ensures MapOf(l[..k] + l[k + 1..]) == MapOf(l) - {name}
  {
    DistinctTail(l);
    MinusUpdate(MapOf(l[1..]), l[0].name, (l[0].id, l[0].key), name);
    var r := l[..k] + l[k + 1..];
    if k == 0 {
      assert r == l[1..];
    } else {
      DropIsRemove(l[1..], name, k - 1);
      DistinctHead(l, k);
      assert r[0] == l[0] && r[1..] == l[1..][..k - 1] + l[1..][k..];
    }
  }

  lemma DistinctHead(l: seq<Entry>, k: nat)
    requires Distinct(l) && 0 < k < |l|
    ensures l[0].name != l[k].name
  {}

  lemma MinusUpdate<K, V>(m: map<K, V>, k: K, v: V, x: K)
    ensures k != x ==> m[k := v] - {x} == (m - {x})[k := v]
    ensures k == x && x !in m ==> m[k := v] - {x} == m
  {}

  lemma DropDistinct(l: seq<Entry>, k: nat)
    requires Distinct(l) && k < |l|
    ensures Distinct(l[..k] + l[k + 1..])
  {
    var r := l[..k] + l[k + 1..];
    assert forall i | 0 <= i < |r| :: r[i] == if i < k then l[i] else l[i + 1];
  }

  // ----- reloading -----

  /** No line of the text adds an account to an empty list. */
  ghost predicate Barren(text: seq<byte>)
    decreases |text|
  {
    text != [] ==>
      var chunk := Fgets(text, LINE_SIZE);
      && (ParseLine(chunk).Some? ==> !NameIsValid(ParseLine(chunk).value.name))
      && Barren(text[|chunk|..])
  }

  lemma LinesGrow(d: Db, text: seq<byte>)
    ensures |LoadLines(d, text).list| >= |d.list|
    ensures Distinct(d.list) ==> Distinct(LoadLines(d, text).list)
    decreases |text|
  {
    if text != [] {
      var chunk := Fgets(text, LINE_SIZE);
      var d' := LoadLine(d, chunk);
      if Distinct(d.list) && d' != d {
        var e := ParseLine(chunk).value;
        assert IndexOf(d.list, e.name) == |d.list|;
        assert d'.list[0].name == e.name && d'.list[1..] == d.list;
        assert forall i | 0 < i < |d'.list| :: d'.list[i] == d.list[i - 1];
      }
      LinesGrow(d', text[|chunk|..]);
    }
  }

  lemma {:induction false} BarrenLoads(d: Db, text: seq<byte>)
    requires d.list == []
    ensures LoadLines(d, text).list == [] <==> Barren(text)
    ensures Barren(text) ==> LoadLines(d, text) == d
    decreases |text|
  {
    if text != [] {
      var chunk := Fgets(text, LINE_SIZE);
      var d' := LoadLine(d, chunk);
      if d' == d {
        BarrenLoads(d, text[|chunk|..]);
      } else {
        LinesGrow(d', text[|chunk|..]);
      }
    }
  }

  /** Nothing is left in the file that a reload would bring back. */
  ghost predicate Settled(d: Db) {
    d.list == [] ==> d.file.None? || Barren(d.file.value)
  }

  lemma LoadSettles(d: Db)
    ensures Settled(Load(d)) && Load(Load(d)) == Load(d)
    ensures Settled(d) ==> Load(d) == d
    ensures Distinct(d.list) ==> Distinct(Load(d).list)
  {
    if d.list == [] && d.file.Some? {
      BarrenLoads(d, d.file.value);
      LinesGrow(d, d.file.value);
    }
  }

  // ----- refinement of a map -----

  datatype Spec = Spec(accounts: Accounts, nextId: u64)

  /** What the database stands for: the accounts after the pending load. */
  function Abs(d: Db): Spec { Spec(MapOf(Load(d).list), Load(d).nextId) }

  function SpecAdd(s: Spec, id: u64, name: seq<byte>, key: seq<byte>): (Spec, bool) {
    if !NameIsValid(name) || name in s.accounts then (s, false)
    else
      var eid := if id != 0 then id else s.nextId;
      (Spec(s.accounts[name := (eid, key)], if eid >= s.nextId then Succ(eid) else s.nextId), true)
  }

  function SpecDrop(s: Spec, name: seq<byte>): (Spec, bool) {
    (s.(accounts := s.accounts - {name}), name in s.accounts)
  }

  lemma LookupRefines(d: Db, name: seq<byte>)
    ensures var (d', r) := LookupName(d, name);
            && Abs(d') == Abs(d)
            && (r.Some? <==> name in Abs(d).accounts)
            && (r.Some? ==> r.value.name == name && Abs(d).accounts[name] == (r.value.id, r.value.key))
  {
    LoadSettles(d);
    LookupIsMap(Load(d).list, name);
  }

  /** Whether or not the file can be written. */
  lemma AddRefines(d: Db, id: u64, name: seq<byte>, key: seq<byte>, ok: bool)
    requires Distinct(d.list)
    ensures var (d', added) := AddEntry(d, id, name, key, ok);
            (Abs(d'), added) == SpecAdd(Abs(d), id, name, key) && Distinct(d'.list) && Settled(d')
  {
    LoadSettles(d);
    var l := Load(d);
    LookupIsMap(l.list, name);
    var (d1, added) := AddEntry_(l, id, name, key);
    if added {
      assert d1.list[1..] == l.list;
      assert forall i | 0 < i < |d1.list| :: d1.list[i] == l.list[i - 1];
    }
    LoadSettles(Save(d1, ok));
  }

  /** A save after a drop matters while one account is left to drop: it succeeds then. */
  predicate DropSaved(d: Db, ok: bool) { |Load(d).list| == 1 ==> ok }

  lemma DropRefines(d: Db, name: seq<byte>, ok: bool)
    requires Distinct(d.list) && DropSaved(d, ok)
    ensures var (d', dropped) := DropEntry(d, name, ok);
            (Abs(d'), dropped) == SpecDrop(Abs(d), name) && Distinct(d'.list) && Settled(d')
  {
    LoadSettles(d);
    var l := Load(d);
    LookupIsMap(l.list, name);
    var k := IndexOf(l.list, name);
    if k < |l.list| {
      DropIsRemove(l.list, name, k);
      DropDistinct(l.list, k);
    } else {
      assert Abs(d).accounts - {name} == Abs(d).accounts;
    }
    var (d', dropped) := DropEntry(d, name, ok);
    LoadSettles(d');
  }

  lemma TempIdRefines(d: Db)
    ensures var (d', id) := GetTempId(d);
            id == Abs(d).nextId && Abs(d') == Abs(d).(nextId := Succ(id))
  {
    LoadSettles(d);
    LoadSettles(GetTempId(d).0);
  }

  /** REGISTER drops and adds: an update of one account that leaves every other account alone. */
  lemma RegisterIsUpdate(d: Db, id: u64, name: seq<byte>, key: seq<byte>, dropOk: bool, addOk: bool)
    requires Distinct(d.list) && NameIsValid(name) && id != 0 && DropSaved(d, dropOk)
    ensures var (d', added) := AddEntry(DropEntry(d, name, dropOk).0, id, name, key, addOk);
            added && Abs(d').accounts == Abs(d).accounts[name := (id, key)]
  {
    DropRefines(d, name, dropOk);
    AddRefines(DropEntry(d, name, dropOk).0, id, name, key, addOk);
    assert (Abs(d).accounts - {name})[name := (id, key)] == Abs(d).accounts[name := (id, key)];
  }

  /** When the save after a drop fails, the very next lookup misses the account exactly when memory keeps
      another account or the file does not hold the dropped one either.  What happens later is the subject of
      UserDbRuns. */
  lemma DropWithoutSave(d: Db, name: seq<byte>)
    requires Distinct(d.list) && d.list != [] && name in MapOf(d.list)
    ensures var (d', _) := DropEntry(d, name, false);
            LookupName(d', name).1.None? <==> |d.list| > 1 || name !in Abs(Db([], d.nextId, d.file)).accounts
  {
    LookupIsMap(d.list, name);
    var k := IndexOf(d.list, name);
    DropIsRemove(d.list, name, k);
    var (d', _) := DropEntry(d, name, false);
    assert d'.list == d.list[..k] + d.list[k + 1..];
    LookupIsMap(Load(d').list, name);
    if |d.list| == 1 {
      assert d' == Db([], d.nextId, d.file);
    }
  }

  // ----- restart -----

  function AddAll(d: Db, l: seq<Entry>): Db
    decreases |l|
  {
    if l == [] then d else AddAll(AddEntry_(d, l[0].id, l[0].name, l[0].key).0, l[1..])
  }

  function Reverse(l: seq<Entry>): (r: seq<Entry>)
    ensures |r| == |l|
  {
    if l == [] then [] else Reverse(l[1..]) + [l[0]]
  }

  /** A line that fits the buffer is read at once. */
  lemma LoadShortLine(d: Db, e: Entry, rest: seq<byte>)
    requires Storable(e) && |RenderLine(e)| < LINE_SIZE
    ensures LoadLines(d, RenderLine(e) + rest) == LoadLines(LoadLine(d, RenderLine(e)), rest)
  {
    var text, n := RenderLine(e) + rest, |RenderLine(e)|;
    LineBreak(e, rest);
    assert Fgets(text, LINE_SIZE) == RenderLine(e);
    assert text[n..] == rest;
  }

  /** A line one byte too long is read without its newline, which then forms a line to be ignored. */
  lemma LoadLongLine(d: Db, e: Entry, rest: seq<byte>)
    requires Storable(e) && |RenderLine(e)| == LINE_SIZE
    ensures LoadLines(d, RenderLine(e) + rest) == LoadLines(LoadLine(d, Fields(e, [])), rest)
  {
    var text, n := RenderLine(e) + rest, |RenderLine(e)|;
    LineBreak(e, rest);
    assert Fgets(text, LINE_SIZE) == text[..n - 1] == Fields(e, []);
    var more := text[n - 1..];
    assert more == [LF] + rest;
    BlankLine(rest);
    assert more[1..] == rest;
  }

  lemma LoadOneLine(d: Db, e: Entry, rest: seq<byte>)
    requires Storable(e)
    ensures LoadLines(d, RenderLine(e) + rest) == LoadLines(AddEntry_(d, e.id, e.name, e.key).0, rest)
  {
    ParseRendered(e, [LF]);
    ParseRendered(e, []);
    if |RenderLine(e)| < LINE_SIZE {
      LoadShortLine(d, e, rest);
    } else {
      LoadLongLine(d, e, rest);
    }
  }

  lemma LineBreak(e: Entry, rest: seq<byte>)
    requires Storable(e)
    ensures Find(RenderLine(e) + rest, LF) == |RenderLine(e)| - 1 == 18 + |e.name| + |e.key|
    ensures RenderLine(e)[..|RenderLine(e)| - 1] == Fields(e, [])
    ensures RenderLine(e)[|RenderLine(e)| - 1] == LF
  {
    var line, body := RenderLine(e), Fields(e, []);
    assert line == body + [LF];
    HexOfDigits(e.id, 16);
    assert forall i | 0 <= i < |body| :: body[i] != LF;
    var text := line + rest;
    assert text[|body|] == LF && forall i | 0 <= i < |body| :: text[i] == body[i];
  }

  lemma BlankLine(rest: seq<byte>)
    ensures Fgets([LF] + rest, LINE_SIZE) == [LF] && ParseLine([LF]).None?
  {
    var more := [LF] + rest;
    assert Find(more, LF) == 0 && more[..1] == [LF];
    var line := CStr([LF]);
    assert [LF][1..] == [];
    assert line == [LF];
    assert SkipSpace(line) == 1;
    assert Digits(line[1..]) == 0;
  }

  lemma {:induction false} LoadRendered(d: Db, l: seq<Entry>)
    requires forall e <- l :: Storable(e)
    ensures LoadLines(d, Render(l)) == AddAll(d, l)
    decreases |l|
  {
    if l != [] {
      LoadOneLine(d, l[0], Render(l[1..]));
      LoadRendered(AddEntry_(d, l[0].id, l[0].name, l[0].key).0, l[1..]);
    }
  }

  /** The smallest counter above `n` and every id. */
  function Above(n: u64, l: seq<Entry>): u64
    decreases |l|
  {
    if l == [] then n else Above(if l[0].id >= n then Succ(l[0].id) else n, l[1..])
  }

  lemma {:induction false} AboveAll(n: u64, l: seq<Entry>)
    requires forall e <- l :: e.id < MAX_ID
    ensures Above(n, l) >= n && forall e <- l :: e.id < Above(n, l)
    ensures Above(n, l) == n || exists e <- l :: Above(n, l) == e.id + 1
    decreases |l|
  {
    if l != [] {
      AboveAll(if l[0].id >= n then Succ(l[0].id) else n, l[1..]);
    }
  }

  lemma {:induction false} AddAllDistinct(d: Db, l: seq<Entry>)
    requires Distinct(l) && (forall e <- l :: NameIsValid(e.name) && e.id != 0)
    requires forall i, j | 0 <= i < |l| && 0 <= j < |d.list| :: l[i].name != d.list[j].name
    ensures AddAll(d, l) == Db(Reverse(l) + d.list, Above(d.nextId, l), d.file)
    decreases |l|
  {
    if l == [] {
      assert Reverse(l) + d.list == d.list;
    } else {
      var (d', added) := AddEntry_(d, l[0].id, l[0].name, l[0].key);
      assert l[0] in l;
      assert forall j | 0 <= j < |d.list| :: l[0].name != d.list[j].name;
      assert d'.list == [l[0]] + d.list;
      AddAllDistinct(d', l[1..]);
      assert Reverse(l[1..]) + d'.list == Reverse(l) + d.list;
    }
  }

  /** Restart: a fresh server that loads what was saved has the same accounts, in reverse list order,
      and a counter one above the largest id. */
  lemma Restart(d: Db)
    requires Distinct(d.list)
    requires forall e <- d.list :: Storable(e) && NameIsValid(e.name) && e.id < MAX_ID
    ensures var d' := Load(Db([], 1, Save(d, true).file));
            && d'.list == Reverse(d.list)
            && MapOf(d'.list) == MapOf(d.list)
            && (forall e <- d.list :: e.id < d'.nextId)
            && (d'.nextId == 1 || exists e <- d.list :: d'.nextId == e.id + 1)
  {
    var d0 := Db([], 1, Save(d, true).file);
    LoadRendered(d0, d.list);
    AddAllDistinct(d0, d.list);
    AboveAll(1, d.list);
    assert Reverse(d.list) + [] == Reverse(d.list);
    ReverseMap(d.list);
  }

  lemma {:induction false} ReverseMembers(l: seq<Entry>)
    ensures forall e :: e in Reverse(l) <==> e in l
  {
    if l != [] { ReverseMembers(l[1..]); }
  }

  lemma {:induction false} ReverseMap(l: seq<Entry>)
    requires Distinct(l)
    ensures Distinct(Reverse(l)) && MapOf(Reverse(l)) == MapOf(l)
    ensures forall e :: e in Reverse(l) <==> e in l
  {
    ReverseMembers(l);
    if l != [] {
      ReverseMap(l[1..]);
      var r := Reverse(l[1..]);
      OthersNames(l);
      hide MapOf;
      MapOfSnoc(r, l[0]);
      MapOfHead(l);
    }
  }

  lemma OthersNames(l: seq<Entry>)
    requires Distinct(l) && l != []
    ensures forall i | 0 <= i < |Reverse(l[1..])| :: Reverse(l[1..])[i].name != l[0].name
  {
    var r := Reverse(l[1..]);
    ReverseMembers(l[1..]);
    forall i | 0 <= i < |r|
      ensures r[i].name != l[0].name
    {
      assert r[i] in l[1..];
      var j :| 0 <= j < |l[1..]| && l[1..][j] == r[i];
      assert l[j + 1] == r[i];
    }
  }

  lemma MapOfHead(l: seq<Entry>)
    requires l != []
    ensures MapOf(l) == MapOf(l[1..])[l[0].name := (l[0].id, l[0].key)]
  {}

  lemma {:induction false} MapOfSnoc(r: seq<Entry>, e: Entry)
    requires forall i | 0 <= i < |r| :: r[i].name != e.name
    ensures MapOf(r + [e]) == MapOf(r)[e.name := (e.id, e.key)]
  {
    if r == [] {
      assert r + [e] == [e];
    } else {
      assert (r + [e])[1..] == r[1..] + [e];
      MapOfSnoc(r[1..], e);
    }
  }

  /** A lookup with nothing in memory finds every account that was saved. */
  lemma Reloaded(n: u64, l: seq<Entry>, e: Entry)
    requires Distinct(l) && (forall x <- l :: Storable(x) && NameIsValid(x.name)) && e in l
    ensures LookupName(Db([], n, Some(Render(l))), e.name).1 == Some(e)
  {
    var d := Db([], n, Some(Render(l)));
    LoadRendered(d, l);
    AddAllDistinct(d, l);
    assert Reverse(l) + [] == Reverse(l);
    ReverseMap(l);
    LookupIsMap(Reverse(l), e.name);
    MapOfMember(l, e);
  }

  lemma {:induction false} MapOfMember(l: seq<Entry>, e: Entry)
    requires Distinct(l) && e in l
    ensures e.name in MapOf(l) && MapOf(l)[e.name] == (e.id, e.key)
  {
    DistinctTail(l);
    if e != l[0] {
      var k :| 0 <= k < |l| && l[k] == e;
      assert l[1..][k - 1] == e;
      MapOfMember(l[1..], e);
    }
  }

  /** A failed save after dropping the only account resurrects it at the next lookup. */
  lemma Resurrection(e: Entry, n: u64)
    requires Storable(e) && NameIsValid(e.name)
    ensures var d := Save(Db([e], n, None), true);
            var (d', dropped) := DropEntry(d, e.name, false);
            dropped && LookupName(d', e.name).1 == Some(e)
  {
    var d := Save(Db([e], n, None), true);
    assert IndexOf([e], e.name) == 0;
    var (d', dropped) := DropEntry(d, e.name, false);
    assert d' == Db([], n, d.file);
    Reloaded(n, [e], e);
  }
}
