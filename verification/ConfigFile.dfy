/** The configuration file (cfgparse.c): `name=value` lines for the variables of a table, as functions.
    The in-place parser in Config.dfy is proved to do what they say. */
module ConfigFile {
  import opened Bytes
  import opened Message
  import opened UserFile

  const LINE_MAX := 4000
  const EQ: byte := 61       // '='
  const HASH: byte := 35     // '#'
  const MINUS: byte := 45

  type i32 = x: int | -0x8000_0000 <= x < 0x8000_0000

  datatype Var = IntVar(i: i32) | StrVar(s: seq<byte>) | OtherVar

  /** An entry of the table with the present value of its variable. */
  datatype Def = Def(name: seq<byte>, v: Var)

  // ----- scanning -----

  function NameLen(s: seq<byte>): (k: nat)
    ensures k <= |s|
  {
    if s == [] || s[0] == EQ || IsSpace(s[0]) then 0 else 1 + NameLen(s[1..])
  }

  function Rtrim(s: seq<byte>): (r: seq<byte>)
    ensures r <= s
  {
    if s != [] && IsSpace(s[|s| - 1]) then Rtrim(s[..|s| - 1]) else s
  }

  // ----- numbers -----

  function DigitsIn(s: seq<byte>, base: nat): (k: nat)
    ensures k <= |s| && forall i | 0 <= i < k :: HexVal(s[i]).Some? && HexVal(s[i]).value < base
  {
    if s == [] || HexVal(s[0]).None? || HexVal(s[0]).value >= base then 0 else 1 + DigitsIn(s[1..], base)
  }

  function ValueIn(s: seq<byte>, base: nat): nat
    requires forall i | 0 <= i < |s| :: HexVal(s[i]).Some?
  {
    if s == [] then 0 else base * ValueIn(s[..|s| - 1], base) + HexVal(s[|s| - 1]).value
  }

  function Number(s: seq<byte>, base: nat): nat { ValueIn(s[..DigitsIn(s, base)], base) }

  /** Digits whose base follows from their prefix. */
  function Unsigned(s: seq<byte>): nat {
    if 2 < |s| && s[0] == 48 && s[1] in {120, 88} && HexVal(s[2]).Some? then Number(s[2..], 16)
    else if s != [] && s[0] == 48 then Number(s, 8)
    else Number(s, 10)
  }

  /** `strtol(s, NULL, 0)` with 64-bit longs: overflow saturates. */
  function Strtol(s: seq<byte>): int {
    var t := s[SkipSpace(s)..];
    if t != [] && t[0] == MINUS then
      var v := Unsigned(t[1..]);
      if v > 0x8000_0000_0000_0000 then -0x8000_0000_0000_0000 else 0 - v
    else
      var v := Unsigned(if t != [] && t[0] == 43 then t[1..] else t);
      if v >= 0x8000_0000_0000_0000 then 0x7FFF_FFFF_FFFF_FFFF else v
  }

  /** Conversion of a long to an int drops the high bits. */
  function ToInt(v: int): i32 {
    var w := v % 0x1_0000_0000;
    if w >= 0x8000_0000 then w - 0x1_0000_0000 else w
  }

  function Dec(n: nat): (r: seq<byte>)
    ensures r != []
  {
    if n < 10 then [48 + n] else Dec(n / 10) + [48 + n % 10]
  }

  /** `%d` */
  function IntText(i: int): (r: seq<byte>)
    ensures r != []
  {
    if i < 0 then [MINUS] + Dec(-i) else Dec(i)
  }

  // ----- parsing -----

  function IndexOfDef(defs: seq<Def>, name: seq<byte>): (k: nat)
    ensures k <= |defs| && forall i | 0 <= i < k :: defs[i].name != name
    ensures k < |defs| ==> defs[k].name == name
  {
    if defs == [] || defs[0].name == name then 0 else 1 + IndexOfDef(defs[1..], name)
  }

  function Converted(v: Var, text: seq<byte>): Var {
    match v
    case IntVar(_) => IntVar(ToInt(Strtol(text)))
    case StrVar(_) => StrVar(text)
    case OtherVar => OtherVar
  }

  /** `cfg_parse_assign`: the first entry of the name takes the value. */
  function Assign(defs: seq<Def>, name: seq<byte>, text: seq<byte>): (r: (seq<Def>, int))
    ensures |r.0| == |defs|
  {
    var k := IndexOfDef(defs, name);
    if k == |defs| then (defs, -1) else (defs[k := defs[k].(v := Converted(defs[k].v, text))], 0)
  }

  /** Name and value on a line; `None` for one without a proper name and equals sign. */
  function Fields(line: seq<byte>): Option<(seq<byte>, seq<byte>)> {
    var name := line[SkipSpace(line)..];
    var n := NameLen(name);
    var eq := n + SkipSpace(name[n..]);
    if eq == |name| || name[eq] != EQ || Rtrim(name[..eq]) == [] then None
    else
      var val := name[eq + 1..];
      Some((Rtrim(name[..eq]), Rtrim(val[SkipSpace(val)..])))
  }

  predicate IsComment(line: seq<byte>) {
    var k := SkipSpace(line);
    k == |line| || line[k] == HASH
  }

  /** `cfg_parse_line` */
  function ParseLine(defs: seq<Def>, line: seq<byte>): (r: (seq<Def>, int))
    ensures |r.0| == |defs|
  {
    if IsComment(line) then (defs, 0)
    else
      match Fields(line)
      case None => (defs, -1)
      case Some((name, val)) => Assign(defs, name, val)
  }

  /** The loop of `cfg_parse_fp`, with the sum of the results. */
  function ParseText(defs: seq<Def>, text: seq<byte>): (r: (seq<Def>, int))
    ensures |r.0| == |defs|
    decreases |text|
  {
    if text == [] then (defs, 0)
    else
      var chunk := Fgets(text, LINE_MAX);
      var (defs', r) := ParseLine(defs, CStr(chunk));
      var (defs'', rest) := ParseText(defs', text[|chunk|..]);
      (defs'', r + rest)
  }

  // ----- writing -----

  function ValueText(v: Var): seq<byte> {
    match v
    case IntVar(i) => IntText(i)
    case StrVar(s) => s
    case OtherVar => []
  }

  function RenderDef(d: Def): seq<byte> {
    if d.v.OtherVar? then [] else d.name + ([EQ] + (ValueText(d.v) + [LF]))
  }

  function Render(defs: seq<Def>): seq<byte> {
    if defs == [] then [] else RenderDef(defs[0]) + Render(defs[1..])
  }

  // ----- numbers are read back -----

  predicate IsDigit(c: byte) { 48 <= c <= 57 }

  predicate AllDigits(s: seq<byte>) { forall i | 0 <= i < |s| :: IsDigit(s[i]) }

  lemma {:induction false} DecDigits(n: nat)
    ensures AllDigits(Dec(n)) && (n > 0 ==> Dec(n)[0] != 48)
  {
    if n >= 10 { DecDigits(n / 10); }
  }

  lemma {:induction false} ValueOfDec(n: nat)
    requires AllDigits(Dec(n))
    ensures ValueIn(Dec(n), 10) == n
  {
    if n >= 10 {
      DecDigits(n / 10);
      ValueOfDec(n / 10);
      assert Dec(n)[..|Dec(n)| - 1] == Dec(n / 10);
    }
  }

  lemma {:induction false} DigitsOfDigits(s: seq<byte>)
    requires AllDigits(s)
    ensures DigitsIn(s, 10) == |s|
  {
    if s != [] {
      assert IsDigit(s[0]);
      DigitsOfDigits(s[1..]);
    }
  }

  function Pow10(k: nat): nat { if k == 0 then 1 else 10 * Pow10(k - 1) }

  lemma {:induction false} DecLength(n: nat, k: nat)
    requires k > 0 && n < Pow10(k)
    ensures |Dec(n)| <= k
  {
    if n >= 10 { DecLength(n / 10, k - 1); }
  }

  lemma ReadDec(n: nat)
    ensures Unsigned(Dec(n)) == n
  {
    var d := Dec(n);
    DecDigits(n);
    ValueOfDec(n);
    DigitsOfDigits(d);
    assert d[..|d|] == d;
    if n == 0 {
      assert d == [48] && d[1..] == [] && d[..0] == [];
      assert DigitsIn(d, 8) == 1 && ValueIn(d, 8) == 0;
    }
    assert 1 < |d| ==> IsDigit(d[1]);
  }

  lemma ReadInt(i: i32)
    ensures ToInt(Strtol(IntText(i))) == i
  {
    hide Unsigned;
    var n := if i < 0 then 0 - i else i;
    ReadDec(n);
    DecDigits(n);
    var t := IntText(i);
    assert IsDigit(Dec(n)[0]);
    assert SkipSpace(t) == 0 && t[0..] == t;
    if i < 0 { assert t[1..] == Dec(n); }
  }

  // ----- lines are read back -----

  /** A name of the table: no white space, no equals sign, no comment, and room for a number. */
  predicate NameOk(n: seq<byte>) {
    && n != [] && n[0] != HASH && |n| <= 3900
    && forall i | 0 <= i < |n| :: n[i] != EQ && n[i] != 0 && !IsSpace(n[i])
  }

  predicate Trimmed(s: seq<byte>) { s != [] ==> !IsSpace(s[0]) && !IsSpace(s[|s| - 1]) }

  /** A string that survives: one line, no white space at the ends, and name, equals sign and value in one
      buffer. */
  predicate Storable(name: seq<byte>, s: seq<byte>) {
    LF !in s && Trimmed(s) && |name| + 1 + |s| < LINE_MAX
  }

  lemma {:induction false} NameStops(n: seq<byte>, rest: seq<byte>)
    requires (forall i | 0 <= i < |n| :: n[i] != EQ && !IsSpace(n[i])) && rest != [] && rest[0] == EQ
    ensures NameLen(n + rest) == |n|
  {
    if n == [] {
      assert n + rest == rest;
    } else {
      assert (n + rest)[1..] == n[1..] + rest;
      NameStops(n[1..], rest);
    }
  }

  lemma RtrimTrimmed(s: seq<byte>)
    requires Trimmed(s)
    ensures Rtrim(s) == s
  {}

  lemma RtrimOne(s: seq<byte>, c: byte)
    requires IsSpace(c)
    ensures Rtrim(s + [c]) == Rtrim(s)
  {
    assert (s + [c])[..|s + [c]| - 1] == s;
  }

  lemma TrimTail(s: seq<byte>, tail: seq<byte>)
    requires Trimmed(s) && tail in {[], [LF]}
    ensures Rtrim(s + tail) == s
  {
    RtrimTrimmed(s);
    hide Rtrim;
    if tail == [LF] {
      RtrimOne(s, LF);
    } else {
      assert s + tail == s;
    }
  }

  lemma {:induction false} SkipTail(s: seq<byte>, tail: seq<byte>)
    requires Trimmed(s) && tail in {[], [LF]}
    ensures var v := s + tail; Rtrim(v[SkipSpace(v)..]) == s
  {
    var v := s + tail;
    if s == [] {
      assert v == tail;
      if tail == [LF] { assert v[1..] == []; }
      assert v[SkipSpace(v)..] == [];
    } else {
      assert v[0] == s[0] && v[0..] == v;
      TrimTail(s, tail);
    }
  }

  /** A written line, with or without its newline, is taken apart into its name and value. */
  lemma ReadFields(name: seq<byte>, s: seq<byte>, tail: seq<byte>)
    requires NameOk(name) && Trimmed(s) && tail in {[], [LF]}
    ensures var line := name + ([EQ] + (s + tail));
            !IsComment(line) && Fields(line) == Some((name, s))
  {
    var rest := [EQ] + (s + tail);
    var line := name + rest;
    assert line[0] == name[0] && SkipSpace(line) == 0 && line[0..] == line;
    NameStops(name, rest);
    assert line[|name|..] == rest && SkipSpace(rest) == 0;
    assert line[..|name|] == name && line[|name| + 1..] == s + tail;
    assert Rtrim(name) == name;
    SkipTail(s, tail);
  }

  /** No name occurs twice. */
  predicate Distinct(defs: seq<Def>) {
    forall i, j | 0 <= i < j < |defs| :: defs[i].name != defs[j].name
  }

  /** The same table, with other values. */
  predicate SameTable(a: seq<Def>, b: seq<Def>) {
    && |a| == |b|
    && forall i | 0 <= i < |a| ::
         a[i].name == b[i].name && a[i].v.IntVar? == b[i].v.IntVar? && a[i].v.StrVar? == b[i].v.StrVar?
  }

  predicate TableOk(defs: seq<Def>) {
    && Distinct(defs)
    && forall i | 0 <= i < |defs| :: NameOk(defs[i].name) && (defs[i].v.StrVar? ==> 0 !in defs[i].v.s)
  }

  predicate AllStorable(defs: seq<Def>) {
    forall i | 0 <= i < |defs| && defs[i].v.StrVar? :: Storable(defs[i].name, defs[i].v.s)
  }

  /** Values whose text can be written on a line. */
  predicate Writable(d: Def) {
    !d.v.OtherVar? && NameOk(d.name) && Storable(d.name, ValueText(d.v)) && 0 !in ValueText(d.v)
  }

  lemma IntWritable(d: Def)
    requires NameOk(d.name) && d.v.IntVar?
    ensures Writable(d)
  {
    var i: int := d.v.i;
    var n := if i < 0 then 0 - i else i;
    DecDigits(n);
    assert Pow10(4) == 10000 && Pow10(8) == 1_0000_0000;
    assert n < Pow10(10);
    DecLength(n, 10);
    var t := IntText(i);
    assert forall k | 0 <= k < |t| :: t[k] == MINUS || IsDigit(t[k]);
  }

  lemma AssignWritten(cur: seq<Def>, i: nat, d: Def)
    requires i < |cur| && Distinct(cur) && cur[i].name == d.name && cur[i].v.IntVar? == d.v.IntVar?
    requires cur[i].v.StrVar? == d.v.StrVar?
    requires !d.v.OtherVar?
    ensures Assign(cur, d.name, ValueText(d.v)) == (cur[i := d], 0)
  {
    assert IndexOfDef(cur, d.name) == i;
    if d.v.IntVar? {
      hide Strtol, ToInt, IntText;
      ReadInt(d.v.i);
    }
  }

  /** The next chunk of the written text is the line of the entry, possibly without its newline. */
  lemma WrittenChunk(d: Def, rest: seq<byte>)
    requires Writable(d)
    ensures var text := RenderDef(d) + rest;
            && text != []
            && exists tail <- {[], [LF]} :: Fgets(text, LINE_MAX) == d.name + ([EQ] + (ValueText(d.v) + tail))
  {
    var v := ValueText(d.v);
    NoBreak(d);
    hide ValueText, NameOk, Find;
    var front := d.name + ([EQ] + v);
    var text := RenderDef(d) + rest;
    assert text == front + ([LF] + rest);
    hide RenderDef;
    FirstBreak(front, rest);
    LineSlices(d.name, v, rest);
  }

  lemma LineSlices(name: seq<byte>, v: seq<byte>, rest: seq<byte>)
    ensures var front := name + ([EQ] + v);
            var text := front + ([LF] + rest);
            text[..|front| + 1] == name + ([EQ] + (v + [LF])) && text[..|front|] == name + ([EQ] + (v + []))
  {}

  lemma NoBreak(d: Def)
    requires Writable(d)
    ensures var front := d.name + ([EQ] + ValueText(d.v));
            LF !in front && |front| < LINE_MAX
  {
    hide IntText;
    var v := ValueText(d.v);
    assert LF !in d.name by { assert forall k | 0 <= k < |d.name| :: d.name[k] != LF; }
  }

  lemma FirstBreak(front: seq<byte>, rest: seq<byte>)
    requires LF !in front
    ensures Find(front + ([LF] + rest), LF) == |front|
  {
    var text := front + ([LF] + rest);
    assert text[|front|] == LF && forall k | 0 <= k < |front| :: text[k] == front[k];
  }

  lemma EmptyLine(defs: seq<Def>, rest: seq<byte>)
    ensures ParseText(defs, [LF] + rest) == ParseText(defs, rest)
  {
    var text := [LF] + rest;
    assert text[0] == LF && Find(text, LF) == 0;
    assert Fgets(text, LINE_MAX) == [LF] && text[1..] == rest;
    assert CStr([LF]) == [LF] && [LF][1..] == [];
    assert IsComment([LF]);
  }

  /** Reading a written line assigns its variable and continues with the next line. */
  lemma ReadWritten(cur: seq<Def>, i: nat, d: Def, rest: seq<byte>)
    requires Writable(d) && i < |cur| && Distinct(cur)
    requires cur[i].name == d.name && cur[i].v.IntVar? == d.v.IntVar? && cur[i].v.StrVar? == d.v.StrVar?
    ensures ParseText(cur, RenderDef(d) + rest) == ParseText(cur[i := d], rest)
  {
    hide Assign, Fields, IsComment, RenderDef;
    WrittenChunk(d, rest);
    var v := ValueText(d.v);
    var text := RenderDef(d) + rest;
    var tail :| tail in {[], [LF]} && Fgets(text, LINE_MAX) == d.name + ([EQ] + (v + tail));
    var chunk := Fgets(text, LINE_MAX);
    assert 0 !in chunk;
    ReadFields(d.name, v, tail);
    AssignWritten(cur, i, d);
    assert ParseLine(cur, CStr(chunk)) == (cur[i := d], 0);
    RestOfChunk(d, rest, tail);
    if tail == [] { EmptyLine(cur[i := d], rest); }
  }

  lemma RestOfChunk(d: Def, rest: seq<byte>, tail: seq<byte>)
    requires !d.v.OtherVar? && tail in {[], [LF]}
    ensures var text := RenderDef(d) + rest;
            var n := |d.name + ([EQ] + (ValueText(d.v) + tail))|;
            n <= |text| && text[n..] == if tail == [] then [LF] + rest else rest
  {
    var v := ValueText(d.v);
    var front := d.name + ([EQ] + v);
    assert RenderDef(d) + rest == front + ([LF] + rest);
  }

  lemma EntryWritable(defs: seq<Def>, n: nat)
    requires TableOk(defs) && AllStorable(defs) && n < |defs| && !defs[n].v.OtherVar?
    ensures Writable(defs[n])
  {
    if defs[n].v.IntVar? { IntWritable(defs[n]); }
  }

  lemma RenderNext(defs: seq<Def>, n: nat)
    requires n < |defs|
    ensures Render(defs[n..]) == RenderDef(defs[n]) + Render(defs[n + 1..])
    ensures defs[n].v.OtherVar? ==> Render(defs[n..]) == Render(defs[n + 1..])
  {
    assert defs[n..][1..] == defs[n + 1..] && defs[n..][0] == defs[n];
    assert [] + Render(defs[n + 1..]) == Render(defs[n + 1..]);
  }

  /** One more variable restored. */
  lemma NextRestored(defs: seq<Def>, cur: seq<Def>, n: nat)
    requires SameTable(cur, defs) && n < |defs| && cur[..n] == defs[..n]
    ensures var cur' := cur[n := defs[n]];
            SameTable(cur', defs) && cur'[..n + 1] == defs[..n + 1] && (defs[n].v.OtherVar? ==> cur' == cur)
  {
    assert forall k | 0 <= k < n :: cur[k] == cur[..n][k] == defs[..n][k] == defs[k];
  }

  /** Reading what was written restores every variable, whatever the variables held before. */
  lemma {:induction false} Restores(defs: seq<Def>, cur: seq<Def>, n: nat)
    requires TableOk(defs) && AllStorable(defs) && SameTable(cur, defs) && n <= |defs| && cur[..n] == defs[..n]
    ensures ParseText(cur, Render(defs[n..])) == (defs, 0)
    decreases |defs| - n
  {
    hide TableOk, AllStorable, Writable, Distinct, ParseLine, RenderDef;
    if n == |defs| {
      assert defs[n..] == [] && cur == cur[..n] == defs;
    } else {
      NextRestored(defs, cur, n);
      Restores(defs, cur[n := defs[n]], n + 1);
      RenderNext(defs, n);
      if !defs[n].v.OtherVar? {
        EntryWritable(defs, n);
        SameDistinct(cur, defs);
        ReadWritten(cur, n, defs[n], Render(defs[n + 1..]));
      }
    }
  }

  lemma SameDistinct(a: seq<Def>, b: seq<Def>)
    requires SameTable(a, b) && TableOk(b)
    ensures Distinct(a)
  {}

  // ----- and nothing else is restored -----

  /** A chunk of a file: the newline, if any, comes last. */
  predicate IsChunk(s: seq<byte>) {
    |s| < LINE_MAX && forall i | 0 <= i < |s| - 1 :: s[i] != LF
  }

  lemma FgetsChunk(text: seq<byte>)
    requires text != []
    ensures IsChunk(CStr(Fgets(text, LINE_MAX)))
  {
    CStrPrefix(Fgets(text, LINE_MAX));
  }

  lemma {:induction false} RtrimTrims(s: seq<byte>)
    ensures var r := Rtrim(s); (r != [] ==> !IsSpace(r[|r| - 1]))
  {
    if s != [] && IsSpace(s[|s| - 1]) { RtrimTrims(s[..|s| - 1]); }
  }

  lemma {:induction false} SkipSkips(s: seq<byte>)
    ensures var k := SkipSpace(s); k < |s| ==> !IsSpace(s[k])
  {
    if s != [] && IsSpace(s[0]) { SkipSkips(s[1..]); }
  }

  lemma SlicesOf(line: seq<byte>, a: nat, b: nat, c: nat)
    requires a <= |line| && a + b <= |line| && a + b + c <= |line|
    ensures line[a..][b..][c..] == line[a + b + c..]
  {}

  /** What is left of the end of a line after trimming. */
  lemma ValueStorable(name: seq<byte>, line: seq<byte>, o: nat)
    requires IsChunk(line) && |name| < o <= |line| && (o < |line| ==> !IsSpace(line[o]))
    ensures Storable(name, Rtrim(line[o..]))
  {
    var r := Rtrim(line[o..]);
    RtrimTrims(line[o..]);
    hide Rtrim;
    forall i | 0 <= i < |r|
      ensures r[i] != LF
    {
      assert r[i] == line[o..][i] == line[o + i];
    }
    if r != [] { assert r[0] == line[o..][0] == line[o]; }
  }

  /** The value is the trimmed end of the line from `o` on. */
  lemma FieldsParts(line: seq<byte>) returns (name: seq<byte>, o: nat)
    requires Fields(line).Some?
    ensures |name| < o <= |line| && Fields(line).value == (name, Rtrim(line[o..]))
    ensures o < |line| ==> !IsSpace(line[o])
  {
    hide SkipSpace, NameLen, Rtrim, IsSpace;
    var k := SkipSpace(line);
    var n := NameLen(line[k..]);
    var eq := n + SkipSpace(line[k..][n..]);
    var rest := line[k..][eq + 1..];
    var j := SkipSpace(rest);
    name := Rtrim(line[k..][..eq]);
    o := k + (eq + 1) + j;
    assert Fields(line).value == (name, Rtrim(rest[j..])) && |name| <= eq < |line[k..]|;
    hide *;
    SkipSkips(rest);
    SlicesOf(line, k, eq + 1, j);
    RestAt(line, k, eq + 1, j);
  }

  lemma RestAt(line: seq<byte>, a: nat, b: nat, c: nat)
    requires a <= |line| && a + b <= |line| && a + b + c <= |line|
    ensures a + b + c < |line| ==> line[a..][b..][c] == line[a + b + c]
  {}

  /** Whatever is read from a line is storable. */
  lemma FieldsStorable(line: seq<byte>)
    requires IsChunk(line) && Fields(line).Some?
    ensures var (name, val) := Fields(line).value; Storable(name, val)
  {
    var name, o := FieldsParts(line);
    ValueStorable(name, line, o);
    hide Fields, Storable, IsChunk;
  }

  /** So a string that ends up in a variable is storable, unless it has been there all along. */
  lemma {:induction false} ReadIsStorable(cur: seq<Def>, text: seq<byte>, i: nat)
    requires i < |cur| && cur[i].v.StrVar?
    ensures var d := ParseText(cur, text).0[i];
            d.name == cur[i].name && d.v.StrVar? && (d.v == cur[i].v || Storable(d.name, d.v.s))
    decreases |text|
  {
    if text != [] {
      var chunk := Fgets(text, LINE_MAX);
      FgetsChunk(text);
      LineIsStorable(cur, CStr(chunk), i);
      ReadIsStorable(ParseLine(cur, CStr(chunk)).0, text[|chunk|..], i);
    }
  }

  lemma LineIsStorable(cur: seq<Def>, line: seq<byte>, i: nat)
    requires i < |cur| && cur[i].v.StrVar? && IsChunk(line)
    ensures var d := ParseLine(cur, line).0[i];
            d.name == cur[i].name && d.v.StrVar? && (d.v == cur[i].v || Storable(d.name, d.v.s))
  {
    if Fields(line).Some? { FieldsStorable(line); }
    hide Fields, Storable;
  }

  /** What was written is restored from every starting point if and only if every string is one line
      without white space at its ends that fits the line buffer together with its name. */
  lemma RestoresExactly(defs: seq<Def>)
    requires TableOk(defs)
    ensures AllStorable(defs) <==> forall cur | SameTable(cur, defs) :: ParseText(cur, Render(defs)) == (defs, 0)
  {
    hide Distinct, NameOk, Storable;
    if AllStorable(defs) {
      forall cur | SameTable(cur, defs)
        ensures ParseText(cur, Render(defs)) == (defs, 0)
      {
        assert defs[0..] == defs && cur[..0] == defs[..0];
        Restores(defs, cur, 0);
      }
    } else {
      var i :| 0 <= i < |defs| && defs[i].v.StrVar? && !Storable(defs[i].name, defs[i].v.s);
      var cur := defs[i := defs[i].(v := StrVar(defs[i].v.s + [1]))];
      assert SameTable(cur, defs);
      ReadIsStorable(cur, Render(defs), i);
      assert ParseText(cur, Render(defs)).0 != defs;
    }
  }
}
