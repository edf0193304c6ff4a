/** Which names can be registered, in bytes, and what registering, looking up and dropping leave behind. */
module UserNames {
  import opened Bytes
  import opened Message
  import opened UserFile
  import opened UserDb
  import opened UserDbMap

  /** A letter, a digit or the underscore. */
  predicate WordByte(c: byte) { 48 <= c <= 57 || 65 <= c <= 90 || 97 <= c <= 122 || c == 95 }

  /** From 3 to 31 such bytes between line feeds or the ends. */
  predicate Stretch(s: seq<byte>, i: nat, j: nat) {
    && i + 3 <= j <= i + 31 && j <= |s| && (i == 0 || s[i - 1] == 10) && (j == |s| || s[j] == 10)
    && forall k | i <= k < j :: WordByte(s[k])
  }

  ghost predicate HasStretch(s: seq<byte>) { exists i: nat, j: nat :: Stretch(s, i, j) }

  lemma LineIs(s: seq<byte>)
    ensures LineIsName(s) <==> Stretch(s, 0, |s|)
  {
    if LineIsName(s) {
      assert forall k | 0 <= k < |s| :: s[k] in s;
    }
    if Stretch(s, 0, |s|) {
      forall c <- s
        ensures IsWord(c)
      {
        var k :| 0 <= k < |s| && s[k] == c;
        assert WordByte(s[k]);
      }
    }
  }

  lemma StretchShifts(s: seq<byte>, n: nat, i: nat, j: nat)
    requires 0 < n <= |s| && s[n - 1] == 10
    ensures Stretch(s[n..], i, j) <==> Stretch(s, i + n, j + n)
  {
    var t := s[n..];
    if Stretch(t, i, j) {
      forall k | i + n <= k < j + n
        ensures WordByte(s[k])
      {
        assert s[k] == t[k - n];
      }
    }
  }

  lemma OneLine(s: seq<byte>, i: nat, j: nat)
    requires Stretch(s, i, j) && forall k | 0 <= k < |s| :: s[k] != 10
    ensures i == 0 && j == |s|
  {}

  lemma {:induction false} NameHasStretch(s: seq<byte>)
    ensures NameIsValid(s) <==> HasStretch(s)
    decreases |s|
  {
    var k := Find(s, LF);
    if k == |s| {
      LineIs(s);
      if HasStretch(s) {
        var i: nat, j: nat :| Stretch(s, i, j);
        OneLine(s, i, j);
      }
    } else {
      LineIs(s[..k]);
      var t := s[k + 1..];
      NameHasStretch(t);
      if HasStretch(t) {
        var i: nat, j: nat :| Stretch(t, i, j);
        StretchShifts(s, k + 1, i, j);
      }
      if Stretch(s[..k], 0, k) {
        assert forall q | 0 <= q < k :: s[..k][q] == s[q];
        assert Stretch(s, 0, k);
      }
      if HasStretch(s) {
        var i: nat, j: nat :| Stretch(s, i, j);
        StretchBefore(s, k, i, j);
      }
    }
  }

  lemma StretchBefore(s: seq<byte>, k: nat, i: nat, j: nat)
    requires k < |s| && s[k] == 10 && (forall q | 0 <= q < k :: s[q] != 10) && Stretch(s, i, j)
    ensures Stretch(s[..k], 0, k) || HasStretch(s[k + 1..])
  {
    if i == 0 {
      assert j == k;
      assert forall q | 0 <= q < k :: s[..k][q] == s[q];
    } else {
      assert i - 1 >= k;
      StretchShifts(s, k + 1, i - k - 1, j - k - 1);
    }
  }

  // ----- adding -----

  lemma AddFindable(d: Db, id: u64, name: seq<byte>, key: seq<byte>)
    ensures var (d', added) := AddEntry_(d, id, name, key);
            && (added <==> NameIsValid(name) && Lookup(d.list, name).None?)
            && (added ==> d'.list != [] && d'.file == d.file
                          && Lookup(d'.list, name) == Some(Entry(if id != 0 then id else d.nextId, name, key)))
            && (!added ==> d' == d)
  {
    hide NameIsValid;
  }

  /** Adding a name that is not known: it is added if and only if it has such a stretch, and is found then, with
      this key and the id given or the counter's. */
  lemma AddsNames(d: Db, id: u64, name: seq<byte>, key: seq<byte>, ok: bool)
    requires LookupName(d, name).1.None?
    ensures var (d', added) := AddEntry(d, id, name, key, ok);
            && (added <==> HasStretch(name))
            && (added ==> LookupName(d', name).1 == Some(Entry(if id != 0 then id else Load(d).nextId, name, key)))
            && (!added ==> LookupName(d', name).1.None?)
  {
    NameHasStretch(name);
    AddFindable(Load(d), id, name, key);
    var d' := AddEntry(d, id, name, key, ok).0;
    LoadSettles(d);
    if d'.list == [] && ok { NothingThere(d', name); }
    hide NameIsValid, HasStretch, AddEntry_, LoadLines, Lookup, Render;
  }

  lemma NothingThere(d: Db, name: seq<byte>)
    requires d.list == [] && d.file == Some(Render([]))
    ensures LookupName(d, name).1.None?
  {}

  /** Adding a known name adds nothing. */
  lemma AddsNothing(d: Db, id: u64, name: seq<byte>, key: seq<byte>, ok: bool)
    requires LookupName(d, name).1.Some?
    ensures var (d', added) := AddEntry(d, id, name, key, ok); !added && d'.list == LookupName(d, name).0.list
  {
    AddFindable(Load(d), id, name, key);
    hide NameIsValid, AddEntry_, LoadLines, Lookup, Render;
  }

  // ----- dropping -----

  /** The drop cannot be saved, nothing is left in memory, and the file still holds the name. */
  ghost predicate ComesBack(d: Db, name: seq<byte>, ok: bool) {
    var l := LookupName(d, name).0;
    && !ok && |l.list| == 1 && l.list[0].name == name
    && LookupName(Db([], l.nextId, l.file), name).1.Some?
  }

  /** Dropping: it succeeds if and only if the name was found, and the name is found afterwards exactly if it comes
      back from the file. */
  lemma DropsNames(d: Db, name: seq<byte>, ok: bool)
    requires Distinct(d.list)
    ensures var (d', dropped) := DropEntry(d, name, ok);
            && (dropped <==> LookupName(d, name).1.Some?)
            && (LookupName(d', name).1.Some? <==> ComesBack(d, name, ok))
            && Distinct(d'.list)
  {
    hide LoadLines, Render, IndexOf, Distinct;
    LoadSettles(d);
    DropsLoaded(Load(d), name, ok);
    hide Load;
    SameDrop(d, name, ok);
  }

  lemma SameDrop(d: Db, name: seq<byte>, ok: bool)
    requires Load(Load(d)) == Load(d)
    ensures DropEntry(d, name, ok) == DropEntry(Load(d), name, ok) && LookupName(d, name) == LookupName(Load(d), name)
    ensures ComesBack(d, name, ok) == ComesBack(Load(d), name, ok)
  {
    hide Load;
  }

  lemma DropsLoaded(l: Db, name: seq<byte>, ok: bool)
    requires Distinct(l.list) && Load(l) == l
    ensures var (d', dropped) := DropEntry(l, name, ok);
            && (dropped <==> LookupName(l, name).1.Some?)
            && (LookupName(d', name).1.Some? <==> ComesBack(l, name, ok))
            && Distinct(d'.list)
  {
    hide LoadLines;
    var k := IndexOf(l.list, name);
    var (d', dropped) := DropEntry(l, name, ok);
    if k < |l.list| {
      DropDistinct(l.list, k);
      Gone(l.list, k);
      if |l.list| > 1 {
        assert d'.list != [];
      } else {
        assert k == 0 && d'.list == [];
        assert d'.nextId == l.nextId && d'.file == if ok then Some(Render([])) else l.file;
        if ok { NothingThere(d', name); } else { assert d' == Db([], l.nextId, l.file); }
      }
    } else {
      assert forall i | 0 <= i < |l.list| :: l.list[i].name != name;
    }
  }

  lemma Gone(l: seq<Entry>, k: nat)
    requires Distinct(l) && k < |l|
    ensures Lookup(l[..k] + l[k + 1..], l[k].name).None?
  {
    var r := l[..k] + l[k + 1..];
    assert forall i | 0 <= i < |r| :: r[i] == if i < k then l[i] else l[i + 1];
    assert forall i | 0 <= i < |r| :: r[i].name != l[k].name;
  }
}
