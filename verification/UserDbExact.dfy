/** Exactly which accounts the database file can carry. */
module UserDbExact {
  import opened Bytes
  import opened Message
  import opened UserFile
  import opened UserDb
  import opened UserDbMap

  /** What a line of the file can be read as. */
  predicate Readable(e: Entry) {
    e.id != 0 && LF !in e.name && DELIM !in e.name && LF !in e.key && CR !in e.key
  }

  lemma CutIsClean(s: seq<byte>)
    requires forall i | 0 <= i < |s| - 1 :: s[i] != LF
    ensures LF !in CutEol(s) && CR !in CutEol(s)
  {
    var c := CutEol(s);
    forall i | 0 <= i < |c|
      ensures c[i] != LF && c[i] != CR
    {
      assert c[i] == s[i];
    }
  }

  lemma LineIsReadable(text: seq<byte>)
    requires text != []
    ensures var e := ParseLine(Fgets(text, LINE_SIZE)); e.Some? ==> Readable(e.value)
  {
    hide Strtoull, CutEol, CStr, Find;
    var chunk := Fgets(text, LINE_SIZE);
    CStrPrefix(chunk);
    var line := CStr(chunk);
    assert forall i | 0 <= i < |line| - 1 :: line[i] == chunk[i] == text[i] != LF;
    if ParseLine(chunk).Some? {
      var end := Strtoull(line).1;
      var rest := line[end + 1..];
      var k := Find(rest, DELIM);
      var key := rest[k + 1..];
      assert forall i | 0 <= i < |rest| :: rest[i] == line[end + 1 + i];
      assert forall i | 0 <= i < |key| :: key[i] == rest[k + 1 + i];
      CutIsClean(key);
      assert forall i | 0 <= i < k :: rest[..k][i] == rest[i] != DELIM;
    }
  }

  /** `l` is readable and ends with `d`. */
  ghost predicate Extends(l: seq<Entry>, d: seq<Entry>) {
    |d| <= |l| && l[|l| - |d|..] == d && forall i | 0 <= i < |l| :: Readable(l[i])
  }

  lemma ExtendsSelf(l: seq<Entry>)
    requires forall i | 0 <= i < |l| :: Readable(l[i])
    ensures Extends(l, l)
  {
    hide Readable;
    assert l[0..] == l;
  }

  lemma ExtendsTrans(a: seq<Entry>, b: seq<Entry>, c: seq<Entry>)
    requires Extends(a, b) && Extends(b, c)
    ensures Extends(a, c)
  {
    hide Readable;
    TailOfTail(a, b, c);
  }

  lemma LinePrepends(d: Db, chunk: seq<byte>)
    requires ParseLine(chunk).Some? ==> Readable(ParseLine(chunk).value)
    requires Extends(d.list, d.list)
    ensures Extends(LoadLine(d, chunk).list, d.list) && Extends(LoadLine(d, chunk).list, LoadLine(d, chunk).list)
  {
    hide ParseLine, NameIsValid, Readable;
    var e := ParseLine(chunk);
    if e.Some? && AddEntry_(d, e.value.id, e.value.name, e.value.key).1 {
      var l := LoadLine(d, chunk).list;
      assert l == [Entry(if e.value.id != 0 then e.value.id else d.nextId, e.value.name, e.value.key)] + d.list;
      NonZero(e.value);
      assert l[0] == e.value;
      ExtendsSelf(l);
    }
  }

  lemma NonZero(e: Entry)
    requires Readable(e)
    ensures e.id != 0
  {}

  /** Lines only add to the front of the list, and only what can be read. */
  lemma {:induction false} LinesPrepend(d: Db, text: seq<byte>)
    requires Extends(d.list, d.list)
    ensures Extends(LoadLines(d, text).list, d.list)
    decreases |text|
  {
    hide Extends, LoadLine, Fgets;
    if text != [] {
      var chunk := Fgets(text, LINE_SIZE);
      LineIsReadable(text);
      LinePrepends(d, chunk);
      var d' := LoadLine(d, chunk);
      LinesPrepend(d', text[|chunk|..]);
      ExtendsTrans(LoadLines(d', text[|chunk|..]).list, d'.list, d.list);
    }
  }

  lemma TailOfTail<T>(a: seq<T>, b: seq<T>, c: seq<T>)
    requires |c| <= |b| <= |a| && a[|a| - |b|..] == b && b[|b| - |c|..] == c
    ensures a[|a| - |c|..] == c
  {
    assert a[|a| - |c|..] == a[|a| - |b|..][|b| - |c|..];
  }

  /** An account whose line does not fit comes back with a shorter key. */
  lemma LongLine(e: Entry, d: Db)
    requires Readable(e) && NameIsValid(e.name) && 0 !in e.name && 0 !in e.key && d.list == []
    requires 19 + |e.name| + |e.key| > LINE_SIZE
    ensures LoadLines(d, RenderLine(e)).list != [e]
  {
    var n := CutLine(e);
    var prefix := e.key[..n];
    var text := RenderLine(e);
    var chunk := Fgets(text, LINE_SIZE);
    hide Fgets, UserFile.Fields, RenderLine, ParseLine, NameIsValid;
    ParseFields(e.id, e.name, prefix);
    WholeKey(prefix);
    var short := Entry(e.id, e.name, prefix);
    var d' := LoadLine(d, chunk);
    assert d'.list == [short];
    assert Readable(short);
    ExtendsSelf(d'.list);
    LinesPrepend(d', text[|chunk|..]);
  }

  /** The first read of a line that does not fit ends within the key. */
  lemma CutLine(e: Entry) returns (n: nat)
    requires Readable(e) && NameIsValid(e.name) && 19 + |e.name| + |e.key| > LINE_SIZE
    ensures n < |e.key| && RenderLine(e) != []
    ensures Fgets(RenderLine(e), LINE_SIZE) == Hex(e.id, 16) + ([DELIM] + (e.name + ([DELIM] + e.key[..n])))
  {
    ShortName(e.name);
    NoBreak(e);
    hide Hex, NameIsValid, Readable;
    var body, text := Fields(e, []), RenderLine(e);
    assert text == body + [LF];
    assert text[|body|] == LF && forall i | 0 <= i < |body| :: text[i] == body[i];
    assert Find(text, LF) == |body|;
    n := LINE_SIZE - 1 - (18 + |e.name|);
    assert Fgets(text, LINE_SIZE) == text[..LINE_SIZE - 1];
    assert text[..LINE_SIZE - 1] == Hex(e.id, 16) + ([DELIM] + (e.name + ([DELIM] + e.key[..n])));
  }

  lemma WholeKey(s: seq<byte>)
    requires LF !in s && CR !in s
    ensures CutEol(s) == s
  {
    assert Find(s, LF) == |s|;
  }

  lemma ShortName(name: seq<byte>)
    requires NameIsValid(name) && LF !in name
    ensures |name| <= 31
  {
    assert Find(name, LF) == |name|;
  }

  lemma NoBreak(e: Entry)
    requires Readable(e)
    ensures forall i | 0 <= i < |Fields(e, [])| :: Fields(e, [])[i] != LF
  {
    HexOfDigits(e.id, 16);
  }

  lemma ReadableExactly(e: Entry)
    requires 0 !in e.name && 0 !in e.key
    ensures Storable(e) <==> Readable(e) && 19 + |e.name| + |e.key| <= LINE_SIZE
  {}

  /** A saved account is read back if and only if it is storable. */
  lemma RoundTripExactly(e: Entry, d: Db)
    requires NameIsValid(e.name) && 0 !in e.name && 0 !in e.key && d.list == []
    ensures LoadLines(d, Render([e])).list == [e] <==> Storable(e)
  {
    ReadableExactly(e);
    assert Render([e]) == RenderLine(e) by { assert [e][1..] == [] && RenderLine(e) + [] == RenderLine(e); }
    if Storable(e) {
      LoadRendered(d, [e]);
      AddAllDistinct(d, [e]);
      assert Reverse([e]) == [e] by { assert [e][1..] == [] && [] + [e] == [e]; }
      assert [e] + [] == [e];
    } else if Readable(e) {
      LongLine(e, d);
    } else {
      ExtendsSelf(d.list);
      LinesPrepend(d, RenderLine(e));
    }
  }

  // ----- line feeds in keys -----

  /** The account `a` with a key that goes on, after a line feed, like the line of the account `b`. */
  function WithLine(a: Entry, b: Entry): Entry { a.(key := a.key + ([LF] + Fields(b, []))) }

  lemma TwoLines(a: Entry, b: Entry)
    ensures RenderLine(WithLine(a, b)) == RenderLine(a) + RenderLine(b)
  {
    hide Hex;
    var h, g := Hex(a.id, 16), Hex(b.id, 16);
    var x := WithLine(a, b);
    assert x.key + [LF] == a.key + ([LF] + Fields(b, [LF]));
    assert RenderLine(x) == h + ([DELIM] + (a.name + ([DELIM] + (a.key + ([LF] + RenderLine(b))))));
  }

  lemma RenderTwo(a: Entry, b: Entry, l: seq<Entry>)
    ensures Render([WithLine(a, b)] + l) == Render([a, b] + l)
  {
    TwoLines(a, b);
    hide Fields, WithLine, RenderLine;
    assert ([WithLine(a, b)] + l)[1..] == l;
    assert ([a, b] + l)[1..] == [b] + l && ([b] + l)[1..] == l;
  }

  /** A line feed in a key makes an account: what is saved with such a key is loaded, after a restart, as two
      accounts, and the second may be anything that the file can carry. */
  lemma KeyMakesAccount(a: Entry, b: Entry, l: seq<Entry>, n: u64)
    requires Distinct([a, b] + l)
    requires forall e <- [a, b] + l :: Storable(e) && NameIsValid(e.name) && e.id < MAX_ID
    ensures var file := Save(Db([WithLine(a, b)] + l, n, None), true).file;
            var l' := Load(Db([], 1, file)).list;
            MapOf(l') == MapOf([a, b] + l) && a in l' && b in l'
  {
    RenderTwo(a, b, l);
    var d := Db([a, b] + l, n, None);
    Restart(d);
    hide Render, Load;
    ReverseMap(d.list);
    assert a in d.list && b in d.list by { assert d.list[0] == a && d.list[1] == b; }
  }
}
