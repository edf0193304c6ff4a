/** What a line of the account file means, whoever wrote it. */
module UserLines {
  import opened Bytes
  import opened Message
  import opened UserFile
  import opened UserDb
  import opened UserDbExact
  import opened UserNames
  import F = ConfigFile
  import L = ConfigLines

  lemma {:induction false} DigitsAlike(s: seq<byte>)
    ensures Digits(s) == F.DigitsIn(s, 16)
  {
    if s != [] && HexVal(s[0]).Some? {
      assert HexVal(s[0]).value < 16;
      DigitsAlike(s[1..]);
    }
  }

  lemma {:induction false} ValuesAlike(s: seq<byte>)
    requires forall i | 0 <= i < |s| :: HexVal(s[i]).Some?
    ensures Value(s) == F.ValueIn(s, 16)
  {
    if s != [] { ValuesAlike(s[..|s| - 1]); }
  }

  lemma DigitsEnd(t: seq<byte>, rest: seq<byte>, n: nat)
    requires L.Spells(t, 16, n) && L.Stops(rest, 16)
    ensures var k := Digits(t + rest); k == |t| > 0 && (t + rest)[..k] == t && Value(t) == n
  {
    L.SpelledDigits(t, 16, n);
    hide L.Spells, L.Shows;
    if rest != [] { L.StopsIs(rest[0], 16); }
    L.DigitsThenStop(t, rest, 16);
    DigitsAlike(t + rest);
    ValuesAlike(t);
  }

  /** A sign or none; 0x or not. */
  predicate Signed(sign: seq<byte>) { sign == [] || sign == [43] || sign == [45] }

  predicate Prefixed(p: seq<byte>) { p == [] || p == [48, 120] || p == [48, 88] }

  /** An id is read in hexadecimal, behind white space, a sign and 0x, in either case; a larger number than fits
      becomes the largest, a negative one wraps, and reading stops behind the digits. */
  lemma HexReads(w: seq<byte>, sign: seq<byte>, p: seq<byte>, t: seq<byte>, rest: seq<byte>, n: nat)
    requires L.Blank(w) && Signed(sign) && Prefixed(p)
    requires L.Spells(t, 16, n) && L.Stops(rest, 16)
    ensures var v := if n > 0xFFFF_FFFF_FFFF_FFFF then 0xFFFF_FFFF_FFFF_FFFF
                     else if sign == [45] && n > 0 then 0x1_0000_0000_0000_0000 - n
                     else n;
            Strtoull(w + (sign + (p + (t + rest)))) == (v, |w| + |sign| + |p| + |t|)
  {
    hide *;
    var s := Laid(w, sign, p, t, rest, n);
    DigitsEnd(t, rest, n);
    var x := s[|w| + |sign| + |p|..];
    assert x == t + rest;
    Scanned(s, |sign|, |p|, |t|, n, x);
  }

  /** The text and what stands where in it. */
  lemma Laid(w: seq<byte>, sign: seq<byte>, p: seq<byte>, t: seq<byte>, rest: seq<byte>, n: nat) returns (s: seq<byte>)
    requires L.Blank(w) && Signed(sign) && Prefixed(p)
    requires L.Spells(t, 16, n) && L.Stops(rest, 16)
    ensures s == w + (sign + (p + (t + rest))) && SkipSpace(s) == |w|
    ensures var j := |w| + |sign|;
            && j + |p| < |s| && |sign| == (if s[|w|] in {43, 45} then 1 else 0)
            && (s[|w|] == 45 <==> sign == [45])
            && (if |p| == 0 then j + 1 < |s| ==> s[j + 1] !in {120, 88}
                else |p| == 2 && s[j] == 48 && s[j + 1] in {120, 88} && HexVal(s[j + 2]).Some?)
            && s[j + |p|..] == t + rest
  {
    hide L.Spells, L.Stops, L.Blank, SkipSpace, HexVal;
    var body := p + (t + rest);
    s := w + (sign + body);
    Start(sign, p, t, rest, n);
    L.SkipsBlank(w, sign + body);
    L.FirstDigit(t, 16, n);
    Parts(w, sign, p, t + rest);
  }

  /** Where the scan of a number passes. */
  lemma Scanned(s: seq<byte>, sign: nat, p: nat, k: nat, n: nat, x: seq<byte>)
    requires var i := SkipSpace(s);
             var j := i + sign;
             && j + p < |s| && x == s[j + p..] && sign == (if s[i] in {43, 45} then 1 else 0) && k > 0
             && (if p == 0 then j + 1 < |s| ==> s[j + 1] !in {120, 88}
                 else p == 2 && s[j] == 48 && s[j + 1] in {120, 88} && HexVal(s[j + 2]).Some?)
             && Digits(x) == k && Value(x[..k]) == n
    ensures var i := SkipSpace(s);
            Strtoull(s) == (if n > 0xFFFF_FFFF_FFFF_FFFF then 0xFFFF_FFFF_FFFF_FFFF
                            else if s[i] == 45 && n > 0 then 0x1_0000_0000_0000_0000 - n
                            else n, i + sign + p + k)
  {
    hide Digits, Value, SkipSpace, HexVal;
  }

  lemma Parts(w: seq<byte>, sign: seq<byte>, p: seq<byte>, x: seq<byte>)
    requires x != []
    ensures var body := p + x;
            var s := w + (sign + body);
            && s[|w|] == (sign + body)[0] && s[|w| + |sign| + |p|..] == x
            && forall i | 0 <= i < |body| :: s[|w| + |sign| + i] == body[i]
  {
    var body := p + x;
    var s := w + (sign + body);
    assert s == (w + sign + p) + x;
    assert forall i | 0 <= i < |body| :: (sign + body)[|sign| + i] == body[i];
  }

  lemma Start(sign: seq<byte>, p: seq<byte>, t: seq<byte>, rest: seq<byte>, n: nat)
    requires Signed(sign) && Prefixed(p)
    requires L.Spells(t, 16, n) && L.Stops(rest, 16)
    ensures var body := p + (t + rest);
            && !L.Blank([(sign + body)[0]])
            && (sign == [] ==> body[0] != 43 && body[0] != 45) && (sign != [] ==> (sign + body)[0] == sign[0])
            && (p == [] && |body| > 1 ==> body[1] != 120 && body[1] != 88)
            && (p != [] ==> |body| > 2 && body[0] == 48 && body[1] in {120, 88} && HexVal(body[2]).Some?)
  {
    L.FirstDigit(t, 16, n);
    L.SpelledDigits(t, 16, n);
    hide L.Spells, L.Shows, L.Blank;
    var body := p + (t + rest);
    L.NoBlank((sign + body)[0]);
    if |t| > 1 { assert HexVal(t[1]).Some?; }
  }

  /** A line with an id other than zero and two bars is an account: the name is between the bars, the key behind them
      up to the first carriage return, or else the first line feed. */
  lemma LineReads(w: seq<byte>, sign: seq<byte>, p: seq<byte>, t: seq<byte>, name: seq<byte>, key: seq<byte>, n: nat)
    requires L.Blank(w) && Signed(sign) && sign != [45] && Prefixed(p)
    requires L.Spells(t, 16, n) && 0 < n < 0x1_0000_0000_0000_0000
    requires 124 !in name && 0 !in name && 0 !in key && 0 !in w + (sign + (p + t))
    ensures ParseLine(w + (sign + (p + (t + ([124] + (name + ([124] + key)))))))
         == Some(Entry(n, name, CutEol(key)))
  {
    hide L.Spells, L.Stops, L.Blank, Strtoull, CutEol, CStr, Find;
    var rest := name + ([124] + key);
    BarStops(rest);
    HexReads(w, sign, p, t, [124] + rest, n);
    var h := w + (sign + (p + t));
    Regroup(w, sign, p, t, [124] + rest);
    assert 0 !in h + ([124] + rest);
    AfterFirst(h, rest);
    Split(name, key);
  }

  lemma Regroup(w: seq<byte>, sign: seq<byte>, p: seq<byte>, t: seq<byte>, rest: seq<byte>)
    ensures w + (sign + (p + (t + rest))) == w + (sign + (p + t)) + rest
  {}

  lemma BarStops(rest: seq<byte>)
    ensures L.Stops([124] + rest, 16)
  {
    assert ([124] + rest)[0] == 124;
  }

  /** The key ends before the first carriage return; without one, before the first line feed. */
  lemma KeyEnds(key: seq<byte>, rest: seq<byte>)
    requires 13 !in key
    ensures CutEol(key + ([13] + rest)) == key
    ensures 10 !in key ==> CutEol(key) == key
    ensures 10 !in key && 13 !in rest ==> CutEol(key + ([10] + rest)) == key
  {
    var a, b := key + ([13] + rest), key + ([10] + rest);
    assert a[|key|] == 13 && b[|key|] == 10;
    assert Find(a, 13) == |key|;
    if 10 !in key {
      assert Find(key, 10) == |key| && key[..|key|] == key;
      if 13 !in rest { assert 13 !in b && Find(b, 10) == |key|; }
    }
  }

  // ----- writing -----

  lemma {:induction false} HexSpells(v: nat, n: nat)
    requires n > 0 && v < Pow16(n)
    ensures L.Spells(Hex(v, n), 16, v)
    ensures forall i | 0 <= i < n :: 48 <= Hex(v, n)[i] <= 57 || 97 <= Hex(v, n)[i] <= 102
    decreases n
  {
    var t := Hex(v, n);
    if n == 1 {
      assert Pow16(1) == 16 && Hex(v / 16, 0) == [];
    } else {
      HexSpells(v / 16, n - 1);
      assert t[..n - 1] == Hex(v / 16, n - 1);
    }
  }

  /** An account is written on a line of its own: the id with 16 hexadecimal digits in lower case, a bar, the name, a
      bar, and the key. */
  lemma LineWritten(e: Entry, l: seq<Entry>) returns (t: seq<byte>)
    ensures Render([e] + l) == t + ([124] + (e.name + ([124] + (e.key + [10])))) + Render(l)
    ensures |t| == 16 && L.Spells(t, 16, e.id) && forall i | 0 <= i < 16 :: 48 <= t[i] <= 57 || 97 <= t[i] <= 102
  {
    t := Hex(e.id, 16);
    assert Pow16(8) == 0x1_0000_0000;
    assert Pow16(12) == 0x1_0000_0000_0000;
    assert Pow16(16) == 0x1_0000_0000_0000_0000;
    HexSpells(e.id, 16);
    assert ([e] + l)[1..] == l;
  }

  /** An account comes back from its own file if and only if its id is not 0, its name holds no line feed and no bar,
      its key no line feed and no carriage return, and name and key are no more than 15981 bytes. */
  lemma FileKeeps(e: Entry, d: Db)
    requires HasStretch(e.name) && 0 !in e.name && 0 !in e.key && d.list == []
    ensures LoadLines(d, Render([e])).list == [e]
       <==> e.id != 0 && 10 !in e.name && 124 !in e.name && 10 !in e.key && 13 !in e.key && |e.name| + |e.key| <= 15981
  {
    NameHasStretch(e.name);
    RoundTripExactly(e, d);
    hide LoadLines, Render, HasStretch, NameIsValid;
  }

  // ----- the file -----

  /** The file is read line by line, a longer line than 15998 bytes as several: a line that is an account is added in
      front unless its name is bad or known, and the counter stays above every id. */
  lemma FileReads(d: Db, chunk: seq<byte>, rest: seq<byte>)
    requires 0 < |chunk| <= 15999 && forall i | 0 <= i < |chunk| - 1 :: chunk[i] != 10
    requires chunk[|chunk| - 1] == 10 || |chunk| == 15999 || rest == []
    ensures var u := ParseLine(chunk);
            var d1 := if u.Some? && HasStretch(u.value.name) && (forall e <- d.list :: e.name != u.value.name) then
                        d.(list := [u.value] + d.list,
                           nextId := if u.value.id < d.nextId then d.nextId
                                     else if u.value.id == 0xFFFF_FFFF_FFFF_FFFF then 0 else u.value.id + 1)
                      else d;
            LoadLines(d, chunk + rest) == LoadLines(d1, rest)
  {
    hide ParseLine, NameIsValid, HasStretch;
    L.FirstChunk(chunk, rest, 16000);
    assert (chunk + rest)[|chunk|..] == rest;
    var u := ParseLine(chunk);
    if u.Some? {
      NameHasStretch(u.value.name);
      LookupNone(d.list, u.value.name);
      IdOfLine(chunk);
    }
    hide Fgets, Lookup;
  }

  lemma IdOfLine(chunk: seq<byte>)
    requires ParseLine(chunk).Some?
    ensures ParseLine(chunk).value.id != 0
  {
    hide Strtoull, CStr, CutEol;
  }

  lemma LookupNone(l: seq<Entry>, name: seq<byte>)
    ensures Lookup(l, name).None? <==> forall e <- l :: e.name != name
  {
    var k := IndexOf(l, name);
    if k < |l| {
      assert l[k] in l;
    } else {
      assert forall i | 0 <= i < |l| :: l[i].name != name;
    }
  }
}
