/** What a line of the configuration file means, byte by byte: blanks, comments, names, and numbers in all three
    bases. */
module ConfigLines {
  import opened Bytes
  import opened Message
  import U = UserFile
  import opened ConfigFile

  // ----- numbers -----

  /** The byte `c` is a digit for `d`, in either case. */
  predicate Shows(c: byte, d: nat) {
    || (d < 10 && c == 48 + d)
    || (10 <= d < 16 && (c == 97 + (d - 10) || c == 65 + (d - 10)))
  }

  /** The digits `t` say `n` in base `b`; leading zeros do not matter. */
  predicate Spells(t: seq<byte>, b: nat, n: nat)
    requires 2 <= b <= 16
  {
    t != [] && Shows(t[|t| - 1], n % b) && if |t| == 1 then n < b else Spells(t[..|t| - 1], b, n / b)
  }

  /** `n` as a number of the configuration file: decimal, octal behind a 0, or hexadecimal behind 0x. */
  predicate Writes(t: seq<byte>, b: nat, n: nat) {
    || (b == 10 && t != [] && t[0] != 48 && Spells(t, 10, n))
    || (b == 8 && t != [] && t[0] == 48 && Spells(t, 8, n))
    || (b == 16 && |t| > 2 && t[0] == 48 && (t[1] == 120 || t[1] == 88) && Spells(t[2..], 16, n))
  }

  /** No digit in base `b` and no x comes next. */
  ghost predicate Stops(rest: seq<byte>, b: nat) {
    rest != [] ==> rest[0] != 120 && rest[0] != 88 && forall d: nat | d < b :: !Shows(rest[0], d)
  }

  lemma ShowsIs(c: byte, d: nat)
    requires d < 16
    ensures Shows(c, d) <==> U.HexVal(c) == Some(d)
  {}

  lemma StopsIs(c: byte, b: nat)
    requires b <= 16 && forall d: nat | d < b :: !Shows(c, d)
    ensures U.HexVal(c).None? || U.HexVal(c).value >= b
  {
    if U.HexVal(c).Some? { ShowsIs(c, U.HexVal(c).value); }
  }

  lemma DivMod(n: nat, b: nat)
    requires b > 0
    ensures b * (n / b) + n % b == n && n % b < b && (n < b ==> n % b == n)
  {}

  lemma {:induction false} SpelledDigits(t: seq<byte>, b: nat, n: nat)
    requires 2 <= b <= 16 && Spells(t, b, n)
    ensures forall i | 0 <= i < |t| :: U.HexVal(t[i]).Some? && U.HexVal(t[i]).value < b
    ensures ValueIn(t, b) == n
  {
    hide Shows, U.HexVal;
    var z := |t| - 1;
    ShowsIs(t[z], n % b);
    DivMod(n, b);
    if z > 0 {
      SpelledDigits(t[..z], b, n / b);
      assert forall i | 0 <= i < z :: t[i] == t[..z][i];
    } else {
      assert t[..0] == [] && n % b == n;
    }
  }

  lemma {:induction false} DigitsThenStop(t: seq<byte>, rest: seq<byte>, b: nat)
    requires forall i | 0 <= i < |t| :: U.HexVal(t[i]).Some? && U.HexVal(t[i]).value < b
    requires rest != [] ==> U.HexVal(rest[0]).None? || U.HexVal(rest[0]).value >= b
    ensures DigitsIn(t + rest, b) == |t|
  {
    if t == [] {
      assert t + rest == rest;
    } else {
      assert (t + rest)[1..] == t[1..] + rest;
      DigitsThenStop(t[1..], rest, b);
    }
  }

  lemma NumberIs(t: seq<byte>, rest: seq<byte>, b: nat, n: nat)
    requires 2 <= b <= 16 && Spells(t, b, n) && Stops(rest, b)
    ensures Number(t + rest, b) == n
  {
    hide Spells, Shows;
    SpelledDigits(t, b, n);
    if rest != [] { StopsIs(rest[0], b); }
    DigitsThenStop(t, rest, b);
    assert (t + rest)[..|t|] == t;
  }

  lemma UnsignedIs(t: seq<byte>, rest: seq<byte>, b: nat, n: nat)
    requires Writes(t, b, n) && Stops(rest, b)
    ensures Unsigned(t + rest) == n
  {
    var s := t + rest;
    hide Number, Stops;
    if b == 16 {
      assert s[2..] == t[2..] + rest;
      FirstDigit(t[2..], 16, n);
      NumberIs(t[2..], rest, 16, n);
    } else {
      NumberIs(t, rest, b, n);
      if b == 8 { NotHex(t, rest, n); }
    }
  }

  lemma FirstDigit(t: seq<byte>, b: nat, n: nat)
    requires 2 <= b <= 16 && Spells(t, b, n)
    ensures t != [] && U.HexVal(t[0]).Some? && U.HexVal(t[0]).value < b
  {
    SpelledDigits(t, b, n);
  }

  lemma NotHex(t: seq<byte>, rest: seq<byte>, n: nat)
    requires Spells(t, 8, n) && Stops(rest, 8)
    ensures |t + rest| > 1 ==> (t + rest)[1] != 120 && (t + rest)[1] != 88
  {
    SpelledDigits(t, 8, n);
    hide Spells, Shows;
    if |t| > 1 { assert U.HexVal(t[1]).Some?; }
  }

  /** White space. */
  predicate Blank(s: seq<byte>) { forall i | 0 <= i < |s| :: s[i] == 32 || 9 <= s[i] <= 13 }

  lemma {:induction false} SkipsBlank(w: seq<byte>, s: seq<byte>)
    requires Blank(w) && (s != [] ==> !Blank([s[0]]))
    ensures U.SkipSpace(w + s) == |w| && (w + s)[|w|..] == s
  {
    if w == [] {
      assert w + s == s;
    } else {
      assert (w + s)[1..] == w[1..] + s;
      SkipsBlank(w[1..], s);
    }
  }

  /** A number is read behind white space and a sign, up to where its digits end, and saturates at 64 bits. */
  lemma NumberReads(w: seq<byte>, sign: seq<byte>, t: seq<byte>, rest: seq<byte>, b: nat, n: nat)
    requires Blank(w) && sign in {[], [43], [45]} && Writes(t, b, n) && Stops(rest, b)
    ensures Strtol(w + (sign + (t + rest)))
         == if sign == [45] then (if n > 0x8000_0000_0000_0000 then -0x8000_0000_0000_0000 else 0 - n)
            else (if n > 0x7FFF_FFFF_FFFF_FFFF then 0x7FFF_FFFF_FFFF_FFFF else n)
  {
    hide Stops, Unsigned, Writes, Blank;
    UnsignedIs(t, rest, b, n);
    WrittenStart(t, b, n);
    var s := sign + (t + rest);
    assert s[0] == if sign == [] then t[0] else sign[0];
    assert !Blank([s[0]]) by { NoBlank(s[0]); }
    SkipsBlank(w, s);
    assert s[1..] == (t + rest)[1 - |sign|..];
    if sign == [] { assert s == t + rest; }
  }

  lemma NoBlank(c: byte)
    requires 43 <= c
    ensures !Blank([c])
  {
    assert [c][0] == c;
  }

  lemma WrittenStart(t: seq<byte>, b: nat, n: nat)
    requires Writes(t, b, n)
    ensures t != [] && 48 <= t[0] <= 57
  {
    hide Spells;
    if b == 10 { FirstDigit(t, 10, n); }
  }

  /** The variable gets the number modulo two to the 32. */
  lemma IntIs(v: int) returns (k: int)
    ensures v == ToInt(v) + 0x1_0000_0000 * k
  {
    k := (v - ToInt(v)) / 0x1_0000_0000;
  }

  /** Text without digits reads as 0. */
  lemma NoNumberReads(w: seq<byte>, sign: seq<byte>, rest: seq<byte>)
    requires Blank(w) && sign in {[], [43], [45]}
    requires rest != [] ==> !Blank([rest[0]]) && rest[0] != 43 && rest[0] != 45 && !(48 <= rest[0] <= 57)
    ensures Strtol(w + (sign + rest)) == 0
  {
    hide Blank;
    var s := sign + rest;
    if s != [] { assert s[0] == if sign == [] then rest[0] else sign[0]; }
    if sign != [] { NoBlank(sign[0]); assert s[1..] == rest; } else { assert s == rest; }
    SkipsBlank(w, s);
    assert DigitsIn(rest, 10) == 0 && rest[..0] == [];
  }

  // ----- lines -----

  /** No blank and no equals sign. */
  predicate Plain(n: seq<byte>) { forall i | 0 <= i < |n| :: n[i] != 61 && n[i] != 32 && !(9 <= n[i] <= 13) }

  /** A name does not begin with a number sign, either. */
  predicate Named(n: seq<byte>) { n != [] && n[0] != 35 && Plain(n) }

  /** Neither the first nor the last byte is blank. */
  predicate Tight(s: seq<byte>) { s != [] ==> !Blank([s[0]]) && !Blank([s[|s| - 1]]) }

  lemma {:induction false} TrimsBlank(s: seq<byte>, w: seq<byte>)
    requires Tight(s) && Blank(w)
    ensures Rtrim(s + w) == s
    decreases |w|
  {
    if w == [] {
      assert s + w == s;
      if s != [] { assert [s[|s| - 1]][0] == s[|s| - 1]; }
    } else {
      assert (s + w)[..|s + w| - 1] == s + w[..|w| - 1];
      TrimsBlank(s, w[..|w| - 1]);
    }
  }

  lemma {:induction false} NameStopsAt(n: seq<byte>, rest: seq<byte>)
    requires Plain(n) && (rest != [] ==> rest[0] == 61 || Blank([rest[0]]))
    ensures NameLen(n + rest) == |n|
  {
    hide Blank;
    if n == [] {
      assert n + rest == rest;
      if rest != [] { BlankOne(rest[0]); }
    } else {
      assert (n + rest)[1..] == n[1..] + rest && (n + rest)[0] == n[0];
      NameStopsAt(n[1..], rest);
    }
  }

  lemma BlankOne(c: byte)
    ensures Blank([c]) <==> c == 32 || 9 <= c <= 13
  {
    assert [c][0] == c;
  }

  lemma BlankStart(w: seq<byte>, c: byte, rest: seq<byte>)
    requires Blank(w)
    ensures var s := w + ([c] + rest); s[0] == c || Blank([s[0]])
  {
    if w != [] { BlankOne(w[0]); }
  }

  /** Name and value of a line with blanks anywhere around them. */
  lemma FieldsAre(w1: seq<byte>, name: seq<byte>, w2: seq<byte>, w3: seq<byte>, text: seq<byte>, w4: seq<byte>)
    requires Blank(w1) && Named(name) && Blank(w2) && Blank(w3) && Tight(text) && Blank(w4)
    ensures var line := w1 + (name + (w2 + ([61] + (w3 + (text + w4)))));
            !IsComment(line) && ConfigFile.Fields(line) == Some((name, text))
  {
    hide Blank, Tight, Plain, Rtrim, U.SkipSpace, NameLen;
    var val := w3 + (text + w4);
    var tail := w2 + ([61] + val);
    var line := w1 + (name + tail);
    NameStart(name, tail);
    SkipsBlank(w1, name + tail);
    BlankStart(w2, 61, val);
    NameStopsAt(name, tail);
    NoBlank(61);
    SkipsBlank(w2, [61] + val);
    EqualsAt(name, w2, val);
    NameTight(name);
    TrimsBlank(name, w2);
    ValueIs(w3, text, w4);
  }

  lemma EqualsAt(name: seq<byte>, w: seq<byte>, val: seq<byte>)
    ensures var s := name + (w + ([61] + val));
            var eq := |name| + |w|;
            s[|name|..] == w + ([61] + val) && s[eq] == 61 && s[..eq] == name + w && s[eq + 1..] == val
  {}

  lemma NameStart(name: seq<byte>, tail: seq<byte>)
    requires Named(name)
    ensures !Blank([(name + tail)[0]]) && (name + tail)[0] != 35
  {
    BlankOne(name[0]);
  }

  lemma NameTight(name: seq<byte>)
    requires Named(name)
    ensures Tight(name)
  {
    BlankOne(name[0]);
    BlankOne(name[|name| - 1]);
  }

  lemma ValueIs(w: seq<byte>, text: seq<byte>, w': seq<byte>)
    requires Blank(w) && Tight(text) && Blank(w')
    ensures var val := w + (text + w'); Rtrim(val[U.SkipSpace(val)..]) == text
  {
    hide Blank, Rtrim;
    var val := w + (text + w');
    if text == [] {
      var all := w + w';
      assert val == all + [];
      BothBlank(w, w');
      SkipsBlank(all, []);
      assert val[|all|..] == [] && [] + [] == text;
      TrimsBlank([], []);
    } else {
      assert (text + w')[0] == text[0];
      SkipsBlank(w, text + w');
      TrimsBlank(text, w');
    }
  }

  lemma BothBlank(a: seq<byte>, b: seq<byte>)
    requires Blank(a) && Blank(b)
    ensures Blank(a + b)
  {}

  /** A line `name = text`, with blanks anywhere around both, sets the first variable of the table with that name: a
      string to the text, a number to what it says, any other not at all. */
  lemma LineSets(defs: seq<Def>, w1: seq<byte>, name: seq<byte>, w2: seq<byte>, w3: seq<byte>, text: seq<byte>,
                 w4: seq<byte>, k: nat)
    requires Blank(w1) && Named(name) && Blank(w2) && Blank(w3) && Tight(text) && Blank(w4)
    requires k <= |defs| && (forall j | 0 <= j < k :: defs[j].name != name) && (k < |defs| ==> defs[k].name == name)
    ensures ParseLine(defs, w1 + (name + (w2 + ([61] + (w3 + (text + w4))))))
         == if k == |defs| then (defs, -1)
            else match defs[k].v
                 case IntVar(_) => (defs[k := Def(name, IntVar(ToInt(Strtol(text))))], 0)
                 case StrVar(_) => (defs[k := Def(name, StrVar(text))], 0)
                 case OtherVar => (defs, 0)
  {
    hide Blank, Tight, Plain, ConfigFile.Fields, IsComment, Strtol, ToInt;
    FieldsAre(w1, name, w2, w3, text, w4);
    assert IndexOfDef(defs, name) == k;
    if k < |defs| && defs[k].v.OtherVar? { assert defs[k := defs[k]] == defs; }
  }

  /** So a number in any of the three bases, with or without a sign, ends up in its variable if that can hold it. */
  lemma NumberSets(defs: seq<Def>, name: seq<byte>, sign: seq<byte>, t: seq<byte>, b: nat, n: nat, k: nat)
    requires Named(name) && sign in {[], [43], [45]} && Writes(t, b, n)
    requires if sign == [45] then n <= 0x8000_0000 else n < 0x8000_0000
    requires k < |defs| && (forall j | 0 <= j < k :: defs[j].name != name) && defs[k].name == name && defs[k].v.IntVar?
    ensures ParseLine(defs, name + ([61] + (sign + t)))
         == (defs[k := Def(name, IntVar(if sign == [45] then 0 - n else n))], 0)
  {
    hide Plain, Strtol, ToInt, Writes, Tight, Blank, ParseLine;
    var text := sign + t;
    WrittenTight(sign, t, b, n);
    NumberIsInt(sign, t, b, n);
    NoBlanks(name, text);
    LineSets(defs, [], name, [], [], text, [], k);
  }

  lemma NoBlanks(name: seq<byte>, text: seq<byte>)
    ensures Blank([]) && [] + (name + ([] + ([61] + ([] + (text + []))))) == name + ([61] + text)
  {}

  lemma NumberIsInt(sign: seq<byte>, t: seq<byte>, b: nat, n: nat)
    requires sign in {[], [43], [45]} && Writes(t, b, n)
    requires if sign == [45] then n <= 0x8000_0000 else n < 0x8000_0000
    ensures ToInt(Strtol(sign + t)) == if sign == [45] then 0 - n else n
  {
    hide Strtol, Writes;
    NumberReads([], sign, t, [], b, n);
    assert [] + (sign + (t + [])) == sign + t;
  }

  lemma WrittenTight(sign: seq<byte>, t: seq<byte>, b: nat, n: nat)
    requires sign in {[], [43], [45]} && Writes(t, b, n)
    ensures Tight(sign + t)
  {
    WrittenStart(t, b, n);
    WrittenEnd(t, b, n);
    hide Writes;
    var s := sign + t;
    assert s[|s| - 1] == t[|t| - 1] && s[0] == if sign == [] then t[0] else sign[0];
    NoBlank(s[0]);
    NoBlank(s[|s| - 1]);
  }

  lemma WrittenEnd(t: seq<byte>, b: nat, n: nat)
    requires Writes(t, b, n)
    ensures t != [] && 48 <= t[|t| - 1]
  {
    if b == 16 { assert t[2..][|t[2..]| - 1] == t[|t| - 1]; }
  }

  /** Blank lines and comments do nothing. */
  lemma NothingSet(defs: seq<Def>, w: seq<byte>, rest: seq<byte>)
    requires Blank(w) && (rest != [] ==> rest[0] == 35)
    ensures ParseLine(defs, w + rest) == (defs, 0)
  {
    hide Blank, ConfigFile.Fields, Assign;
    if rest != [] { BlankOne(rest[0]); }
    SkipsBlank(w, rest);
  }

  /** A line is refused whose name is not followed by an equals sign, or that has none. */
  lemma LineRefused(defs: seq<Def>, w1: seq<byte>, name: seq<byte>, w2: seq<byte>, rest: seq<byte>)
    requires Blank(w1) && Blank(w2) && Plain(name)
    requires || (Named(name) && rest == [])
             || (Named(name) && w2 != [] && rest[0] != 61 && !Blank([rest[0]]))
             || (name == [] && w2 == [] && rest != [] && rest[0] == 61)
    ensures ParseLine(defs, w1 + (name + (w2 + rest))) == (defs, -1)
  {
    hide Blank, Plain, Rtrim, Assign;
    var tail := w2 + rest;
    var s := name + tail;
    if name != [] {
      NameStart(name, tail);
      if w2 != [] { BlankHead(w2); }
    } else {
      assert s == rest;
      NoBlank(61);
    }
    SkipsBlank(w1, s);
    NameStopsAt(name, tail);
    assert s[|name|..] == tail;
    if rest != [] { SkipsBlank(w2, rest); } else { SkipsBlank(w2, []); }
    var eq := |name| + |w2|;
    if name == [] { assert s[..eq] == []; NothingTrimmed(); } else { assert rest != [] ==> s[eq] == rest[0]; }
  }

  lemma NothingTrimmed()
    ensures Rtrim([]) == []
  {}

  lemma BlankHead(w: seq<byte>)
    requires Blank(w) && w != []
    ensures Blank([w[0]])
  {
    BlankOne(w[0]);
  }

  // ----- writing -----

  lemma {:induction false} DecSpells(n: nat) returns (t: seq<byte>)
    ensures t == Dec(n) && Spells(t, 10, n) && (t[0] == 48 ==> n == 0)
  {
    t := Dec(n);
    if n >= 10 {
      var front := DecSpells(n / 10);
      assert t[..|t| - 1] == front && t[0] == front[0];
    }
  }

  /** A number is written in decimal, behind a minus sign if it is negative, without zeros in front. */
  lemma NumberWritten(name: seq<byte>, i: i32) returns (t: seq<byte>)
    ensures RenderDef(Def(name, IntVar(i))) == name + ([61] + ((if i < 0 then [45] else []) + t + [10]))
    ensures Spells(t, 10, if i < 0 then 0 - i else i) && (t[0] == 48 ==> i == 0)
  {
    t := DecSpells(if i < 0 then 0 - i else i);
    assert IntText(i) == (if i < 0 then [45] else []) + t;
  }

  /** A string as it is, anything else not at all, and each on its own line. */
  lemma {:induction false} TextWritten(defs: seq<Def>, more: seq<Def>)
    ensures |defs| == 1 && defs[0].v.StrVar? ==> Render(defs) == defs[0].name + ([61] + (defs[0].v.s + [10]))
    ensures |defs| == 1 && defs[0].v.IntVar? ==> Render(defs) == RenderDef(defs[0])
    ensures |defs| == 1 && defs[0].v.OtherVar? ==> Render(defs) == []
    ensures Render(defs + more) == Render(defs) + Render(more)
  {
    hide RenderDef;
    if |defs| == 1 {
      assert defs[1..] == [] && Render(defs) == RenderDef(defs[0]) + [];
      OneWritten(defs[0]);
    }
    if defs == [] {
      assert defs + more == more;
    } else {
      assert (defs + more)[1..] == defs[1..] + more;
      TextWritten(defs[1..], more);
    }
  }

  lemma OneWritten(d: Def)
    ensures d.v.StrVar? ==> RenderDef(d) == d.name + ([61] + (d.v.s + [10]))
    ensures d.v.OtherVar? ==> RenderDef(d) == []
  {}

  // ----- texts -----

  /** The text is read line by line; a longer line than 3998 bytes counts as several, and of a line with a NUL only
      what stands in front of it is seen. */
  lemma TextReads(defs: seq<Def>, chunk: seq<byte>, line: seq<byte>, rest: seq<byte>)
    requires 0 < |chunk| <= 3999 && forall i | 0 <= i < |chunk| - 1 :: chunk[i] != 10
    requires chunk[|chunk| - 1] == 10 || |chunk| == 3999 || rest == []
    requires UpToNul(chunk, line)
    ensures var (defs1, r) := ParseLine(defs, line);
            ParseText(defs, chunk + rest) == (ParseText(defs1, rest).0, r + ParseText(defs1, rest).1)
  {
    hide ParseLine;
    TextIs(chunk, line);
    FirstChunk(chunk, rest, 4000);
    assert (chunk + rest)[|chunk|..] == rest;
  }

  /** What a buffer of that size takes from the front of a text. */
  lemma FirstChunk(chunk: seq<byte>, rest: seq<byte>, size: nat)
    requires 0 < |chunk| < size && forall i | 0 <= i < |chunk| - 1 :: chunk[i] != 10
    requires chunk[|chunk| - 1] == 10 || |chunk| == size - 1 || rest == []
    ensures U.Fgets(chunk + rest, size) == chunk
  {
    var text := chunk + rest;
    var k := U.Find(text, 10);
    assert forall i | 0 <= i < |chunk| - 1 :: text[i] == chunk[i];
    assert text[|chunk| - 1] == chunk[|chunk| - 1];
    assert text[..|chunk|] == chunk;
    if rest == [] { assert text == chunk; }
  }
}
