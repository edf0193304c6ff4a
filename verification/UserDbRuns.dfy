/** Sequences of operations on the user database: what a save that fails leaves behind. */
module UserDbRuns {
  import opened Bytes
  import opened Message
  import opened UserFile
  import opened UserDb
  import opened UserDbMap

  datatype Op =
    | Look(name: seq<byte>)
    | Add(id: u64, name: seq<byte>, key: seq<byte>, ok: bool)
    | Drop(name: seq<byte>, ok: bool)
    | Temp

  function Apply(d: Db, op: Op): Db {
    match op
    case Look(name) => LookupName(d, name).0
    case Add(id, name, key, ok) => AddEntry(d, id, name, key, ok).0
    case Drop(name, ok) => DropEntry(d, name, ok).0
    case Temp => GetTempId(d).0
  }

  function After(d: Db, ops: seq<Op>): Db
    decreases |ops|
  {
    if ops == [] then d else After(Apply(d, ops[0]), ops[1..])
  }

  /** The operation writes the file. */
  predicate Writes(d: Db, op: Op) {
    match op
    case Add(_, _, _, ok) => ok
    case Drop(name, ok) => ok && Lookup(Load(d).list, name).Some?
    case _ => false
  }

  /** The operation adds or drops an account of this name. */
  predicate Concerns(op: Op, name: seq<byte>) { (op.Add? || op.Drop?) && op.name == name }

  predicate Apart(ops: seq<Op>, name: seq<byte>) { forall op <- ops :: !Concerns(op, name) }

  // ----- what is in the file -----

  /** Some line of the text is an account of this name. */
  ghost predicate Mentions(text: seq<byte>, name: seq<byte>)
    decreases |text|
  {
    text != [] &&
    var chunk := Fgets(text, LINE_SIZE);
    || (ParseLine(chunk).Some? && ParseLine(chunk).value.name == name && NameIsValid(name))
    || Mentions(text[|chunk|..], name)
  }

  ghost predicate InFile(d: Db, name: seq<byte>) { d.file.Some? && Mentions(d.file.value, name) }

  lemma LookupCons(e: Entry, l: seq<Entry>, name: seq<byte>)
    ensures Lookup([e] + l, name) == if e.name == name then Some(e) else Lookup(l, name)
  {
    assert ([e] + l)[1..] == l;
  }

  lemma AddFinds(d: Db, id: u64, name: seq<byte>, key: seq<byte>, other: seq<byte>)
    ensures Lookup(AddEntry_(d, id, name, key).0.list, other).Some?
            <==> Lookup(d.list, other).Some? || (other == name && NameIsValid(name))
  {
    hide NameIsValid, Lookup;
    LookupCons(Entry(if id != 0 then id else d.nextId, name, key), d.list, other);
  }

  lemma {:induction false} LinesFind(d: Db, text: seq<byte>, name: seq<byte>)
    ensures Lookup(LoadLines(d, text).list, name).Some? <==> Lookup(d.list, name).Some? || Mentions(text, name)
    decreases |text|
  {
    hide Lookup, NameIsValid, AddEntry_;
    if text != [] {
      var chunk := Fgets(text, LINE_SIZE);
      if ParseLine(chunk).Some? {
        var e := ParseLine(chunk).value;
        AddFinds(d, e.id, e.name, e.key, name);
      }
      LinesFind(LoadLine(d, chunk), text[|chunk|..], name);
    }
  }

  /** What a lookup finds: in memory, or in the file while memory is empty. */
  lemma LoadFinds(d: Db, name: seq<byte>)
    ensures Lookup(Load(d).list, name).Some? <==> Lookup(d.list, name).Some? || (d.list == [] && InFile(d, name))
  {
    hide LoadLines, Mentions;
    if d.list == [] && d.file.Some? { LinesFind(d, d.file.value, name); }
  }

  lemma DropFinds(d: Db, name: seq<byte>, other: seq<byte>)
    requires name != other
    ensures Lookup(DropEntry_(d, name).0.list, other) == Lookup(d.list, other)
  {
    var k := IndexOf(d.list, name);
    if k < |d.list| { LookupWithout(d.list, k, other); }
  }

  lemma {:induction false} LookupWithout(l: seq<Entry>, k: nat, other: seq<byte>)
    requires k < |l| && l[k].name != other
    ensures Lookup(l[..k] + l[k + 1..], other) == Lookup(l, other)
    decreases k
  {
    assert l == [l[0]] + l[1..];
    LookupCons(l[0], l[1..], other);
    if k == 0 {
      assert l[..0] + l[1..] == l[1..];
    } else {
      LookupWithout(l[1..], k - 1, other);
      assert l[..k] + l[k + 1..] == [l[0]] + (l[1..][..k - 1] + l[1..][k..]);
      LookupCons(l[0], l[1..][..k - 1] + l[1..][k..], other);
    }
  }

  /** An operation that does not concern the name. */
  lemma ApplyFinds(d: Db, op: Op, name: seq<byte>)
    requires !Concerns(op, name)
    ensures Lookup(Apply(d, op).list, name).Some? <==> Lookup(Load(d).list, name).Some?
    ensures Apply(d, op).file == if Writes(d, op) then Some(Render(Apply(d, op).list)) else d.file
  {
    hide Load, Lookup, AddEntry_, DropEntry_, Render;
    match op
    case Add(id, n, key, ok) => AddFinds(Load(d), id, n, key, name); AddKeepsFile(Load(d), id, n, key);
    case Drop(n, ok) => DropFinds(Load(d), n, name); DropsIfFound(Load(d), n);
    case _ =>
  }

  lemma AddKeepsFile(d: Db, id: u64, name: seq<byte>, key: seq<byte>)
    ensures AddEntry_(d, id, name, key).0.file == d.file
  {
    hide NameIsValid, Lookup;
  }

  lemma DropsIfFound(d: Db, name: seq<byte>)
    ensures var (d', dropped) := DropEntry_(d, name);
            (dropped <==> Lookup(d.list, name).Some?) && d'.file == d.file && (!dropped ==> d' == d)
  {}

  // ----- accounts that come back -----

  /** At some point memory is empty while the file holds the name. */
  ghost predicate Exposed(d: Db, ops: seq<Op>, name: seq<byte>)
    decreases |ops|
  {
    (d.list == [] && InFile(d, name)) || (ops != [] && Exposed(Apply(d, ops[0]), ops[1..], name))
  }

  lemma {:induction false} StaysFound(d: Db, ops: seq<Op>, name: seq<byte>)
    requires Apart(ops, name) && Lookup(Load(d).list, name).Some?
    ensures LookupName(After(d, ops), name).1.Some?
    decreases |ops|
  {
    hide Load, Lookup, Apply;
    if ops != [] {
      ApplyFinds(d, ops[0], name);
      LoadFinds(Apply(d, ops[0]), name);
      StaysFound(Apply(d, ops[0]), ops[1..], name);
    }
  }

  /** A name that is not in memory is found after operations on other names if and only if memory was empty on
      the way while a line of the file held the name. */
  lemma {:induction false} FoundAgain(d: Db, ops: seq<Op>, name: seq<byte>)
    requires Lookup(d.list, name).None? && Apart(ops, name)
    ensures LookupName(After(d, ops), name).1.Some? <==> Exposed(d, ops, name)
    decreases |ops|
  {
    hide Load, Lookup, Apply, InFile;
    LoadFinds(d, name);
    if d.list == [] && InFile(d, name) {
      StaysFound(d, ops, name);
    } else if ops != [] {
      ApplyFinds(d, ops[0], name);
      FoundAgain(Apply(d, ops[0]), ops[1..], name);
    }
  }

  // ----- with accounts that a line can hold -----

  ghost predicate AllStorable(l: seq<Entry>) { forall e <- l :: Storable(e) }

  /** Every account that is in memory on the way can be read back from its line. */
  ghost predicate StorableOn(d: Db, ops: seq<Op>)
    decreases |ops|
  {
    AllStorable(d.list) && (ops != [] ==> StorableOn(Apply(d, ops[0]), ops[1..]))
  }

  /** Memory becomes empty before the file is written. */
  ghost predicate EmptiedUnsaved(d: Db, ops: seq<Op>)
    decreases |ops|
  {
    d.list == [] || (ops != [] && !Writes(d, ops[0]) && EmptiedUnsaved(Apply(d, ops[0]), ops[1..]))
  }

  /** A file that was written holds no other name than memory did. */
  lemma {:induction false} RenderMentions(l: seq<Entry>, name: seq<byte>)
    requires AllStorable(l) && Lookup(l, name).None?
    ensures !Mentions(Render(l), name)
  {
    var d := Db([], 1, None);
    LinesFind(d, Render(l), name);
    LoadRendered(d, l);
    AddAllFinds(d, l, name);
  }

  lemma {:induction false} AddAllFinds(d: Db, l: seq<Entry>, name: seq<byte>)
    requires Lookup(l, name).None?
    ensures Lookup(AddAll(d, l).list, name).Some? ==> Lookup(d.list, name).Some?
    decreases |l|
  {
    hide NameIsValid, AddEntry_, Lookup;
    if l != [] {
      assert l == [l[0]] + l[1..];
      LookupCons(l[0], l[1..], name);
      AddFinds(d, l[0].id, l[0].name, l[0].key, name);
      AddAllFinds(AddEntry_(d, l[0].id, l[0].name, l[0].key).0, l[1..], name);
    }
  }

  lemma {:induction false} ExposedUnsaved(d: Db, ops: seq<Op>, name: seq<byte>)
    requires Lookup(d.list, name).None? && Apart(ops, name) && StorableOn(d, ops)
    ensures Exposed(d, ops, name) <==> InFile(d, name) && EmptiedUnsaved(d, ops)
    decreases |ops|
  {
    hide Load, Lookup, Apply, Mentions, Writes, Render, AllStorable;
    LoadFinds(d, name);
    if !(d.list == [] && InFile(d, name)) && ops != [] {
      var d' := Apply(d, ops[0]);
      ApplyFinds(d, ops[0], name);
      ExposedUnsaved(d', ops[1..], name);
      if Writes(d, ops[0]) { RenderMentions(d'.list, name); }
    }
  }

  /** An account whose drop could not be saved is found again, after any operations on other accounts, if and
      only if the file held it and memory became empty before the file was written. */
  lemma DropComesBack(d: Db, name: seq<byte>, ops: seq<Op>)
    requires Distinct(d.list) && Lookup(d.list, name).Some? && Apart(ops, name)
    requires StorableOn(DropEntry(d, name, false).0, ops)
    ensures var d' := DropEntry(d, name, false).0;
            LookupName(After(d', ops), name).1.Some? <==> InFile(d, name) && EmptiedUnsaved(d', ops)
  {
    var d' := DropEntry(d, name, false).0;
    assert Lookup(d'.list, name).None? by {
      LookupIsMap(d.list, name);
      DropIsRemove(d.list, name, IndexOf(d.list, name));
      LookupIsMap(d'.list, name);
    }
    hide Lookup, StorableOn, InFile, After;
    FoundAgain(d', ops, name);
    ExposedUnsaved(d', ops, name);
  }

  /** Two drops that could not be saved: the first account seems to be gone after the first drop, and is back
      after the second, which emptied the list. */
  lemma BackAfterTwoDrops(a: Entry, b: Entry, n: u64)
    requires Storable(a) && Storable(b) && NameIsValid(a.name) && NameIsValid(b.name) && a.name != b.name
    ensures var d := Save(Db([a, b], n, None), true);
            var d1 := DropEntry(d, a.name, false).0;
            var d2 := DropEntry(d1, b.name, false).0;
            LookupName(d1, a.name).1.None? && LookupName(d2, a.name).1 == Some(a)
  {
    hide Storable, NameIsValid, LoadLines, Render, DropEntry, LookupName;
    var file := Some(Render([a, b]));
    FirstDropped([a, b], n, file);
    FirstDropped([b], n, file);
    assert [a, b][1..] == [b] && [b][1..] == [];
    NotAmong(Db([b], n, file), a.name);
    Reloaded(n, [a, b], a);
  }

  lemma FirstDropped(l: seq<Entry>, n: u64, file: Option<seq<byte>>)
    requires l != []
    ensures DropEntry(Db(l, n, file), l[0].name, false).0 == Db(l[1..], n, file)
  {
    assert IndexOf(l, l[0].name) == 0 && l[..0] + l[1..] == l[1..];
  }

  lemma NotAmong(d: Db, name: seq<byte>)
    requires d.list != [] && forall e <- d.list :: e.name != name
    ensures LookupName(d, name).1.None?
  {
    assert forall i | 0 <= i < |d.list| :: d.list[i] in d.list;
  }
}
