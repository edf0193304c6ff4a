/** The configuration parser as the program runs it: over one line buffer that it cuts up in place, with
    the variables assigned through the table (cfgparse.c). */
module Config {
  import opened Bytes
  import opened Message
  import opened UserFile
  import opened ConfigFile

  // ----- C strings in a buffer -----

  /** A string starts at `s`: there is a terminator further on. */
  predicate Terminated(a: seq<byte>, s: nat) { s < |a| && 0 in a[s..] }

  function Text(a: seq<byte>, s: nat): seq<byte>
    requires s <= |a|
  {
    CStr(a[s..])
  }

  lemma TextStep(a: seq<byte>, s: nat)
    requires Terminated(a, s)
    ensures Text(a, s) == if a[s] == 0 then [] else [a[s]] + Text(a, s + 1)
    ensures a[s] != 0 ==> Terminated(a, s + 1)
  {
    assert a[s..][1..] == a[s + 1..] && a[s..] == [a[s]] + a[s + 1..];
  }

  lemma {:induction false} TextFrom(a: seq<byte>, s: nat, k: nat)
    requires Terminated(a, s) && k <= |Text(a, s)|
    ensures Terminated(a, s + k) && Text(a, s + k) == Text(a, s)[k..]
    decreases k
  {
    TextStep(a, s);
    TextBounds(a, s);
    hide *;
    if k == 0 {
      assert Text(a, s)[0..] == Text(a, s);
    } else {
      TextFrom(a, s + 1, k - 1);
      Shifted(a[s], Text(a, s + 1), k);
    }
  }

  lemma TextAt(a: seq<byte>, s: nat, k: nat)
    requires Terminated(a, s) && k <= |Text(a, s)|
    ensures Terminated(a, s + k) && Text(a, s + k) == Text(a, s)[k..]
    ensures k < |Text(a, s)| ==> a[s + k] == Text(a, s)[k] != 0
    ensures k == |Text(a, s)| ==> a[s + k] == 0
  {
    TextFrom(a, s, k);
    TextStep(a, s + k);
    hide CStr;
  }

  lemma Shifted(x: byte, u: seq<byte>, k: nat)
    requires 0 < k <= |u| + 1
    ensures ([x] + u)[k..] == u[k - 1..]
  {}

  lemma {:induction false} TextIs(a: seq<byte>, s: nat, t: seq<byte>)
    requires s + |t| < |a| && a[s..s + |t|] == t && 0 !in t && a[s + |t|] == 0
    ensures Terminated(a, s) && Text(a, s) == t
  {
    assert a[s..] == t + [0] + a[s + |t| + 1..];
    CStrTerminated(t, a[s + |t| + 1..]);
    assert a[s..][|t|] == 0;
  }

  lemma TextSlice(a: seq<byte>, s: nat)
    requires Terminated(a, s)
    ensures var n := |Text(a, s)|;
            s + n < |a| && a[s..s + n] == Text(a, s) && 0 !in Text(a, s) && a[s + n] == 0
  {
    var t := Text(a, s);
    forall k: nat | k < |t|
      ensures s + k < |a| && a[s + k] == t[k]
    {
      TextAt(a, s, k);
    }
    TextAt(a, s, |t|);
  }

  /** A terminator written into a string cuts it. */
  lemma TextCut(a: seq<byte>, s: nat, k: nat)
    requires Terminated(a, s) && k <= |Text(a, s)|
    ensures s + k < |a| && Terminated(a[s + k := 0], s) && Text(a[s + k := 0], s) == Text(a, s)[..k]
  {
    TextSlice(a, s);
    var b := a[s + k := 0];
    assert b[s..s + k] == a[s..s + k] == a[s..s + |Text(a, s)|][..k];
    TextIs(b, s, Text(a, s)[..k]);
  }

  /** A string is not changed by writes outside of it. */
  lemma TextSame(a: seq<byte>, b: seq<byte>, s: nat)
    requires Terminated(a, s) && |b| == |a| && forall k | s <= k <= s + |Text(a, s)| && k < |a| :: b[k] == a[k]
    ensures Terminated(b, s) && Text(b, s) == Text(a, s)
  {
    TextSlice(a, s);
    assert b[s..s + |Text(a, s)|] == a[s..s + |Text(a, s)|];
    TextIs(b, s, Text(a, s));
  }

  // ----- scanning in place -----

  method SkipWs(line: array<byte>, s: nat) returns (p: nat)
    requires Terminated(line[..], s)
    ensures p == s + SkipSpace(Text(line[..], s))
    ensures Terminated(line[..], p) && Text(line[..], p) == Text(line[..], s)[p - s..]
  {
    hide CStr;
    ghost var a := line[..];
    p := s;
    while line[p] != 0 && IsSpace(line[p])
      invariant s <= p && Terminated(a, p)
      invariant p - s <= |Text(a, s)| && Text(a, p) == Text(a, s)[p - s..]
      invariant SkipSpace(Text(a, s)) == p - s + SkipSpace(Text(a, p))
      decreases line.Length - p
    {
      TextStep(a, p);
      p := p + 1;
    }
    TextStep(a, p);
  }

  method SkipName(line: array<byte>, s: nat) returns (p: nat)
    requires Terminated(line[..], s)
    ensures p == s + NameLen(Text(line[..], s))
    ensures Terminated(line[..], p) && Text(line[..], p) == Text(line[..], s)[p - s..]
  {
    hide CStr;
    ghost var a := line[..];
    p := s;
    while line[p] != 0 && EQ != line[p] && !IsSpace(line[p])
      invariant s <= p && Terminated(a, p)
      invariant p - s <= |Text(a, s)| && Text(a, p) == Text(a, s)[p - s..]
      invariant NameLen(Text(a, s)) == p - s + NameLen(Text(a, p))
      decreases line.Length - p
    {
      TextStep(a, p);
      p := p + 1;
    }
    TextStep(a, p);
  }

  /** Trailing white space is overwritten with terminators. */
  method RtrimInPlace(line: array<byte>, s: nat)
    requires Terminated(line[..], s)
    modifies line
    ensures Terminated(line[..], s) && Text(line[..], s) == Rtrim(Text(old(line[..]), s))
    ensures forall k | 0 <= k < line.Length && !(s <= k < s + |Text(old(line[..]), s)|) :: line[k] == old(line[k])
  {
    ghost var a := line[..];
    ghost var t := Text(a, s);
    TextSlice(a, s);
    if line[s] == 0 {
      assert t == [];
      return;
    }
    var p := s + |CStr(line[s..])| - 1;
    assert line[s..] == a[s..];
    assert t[..|t|] == t;
    hide CStr, Text, Terminated;
    while IsSpace(line[p])
      invariant s <= p < s + |t| && Terminated(line[..], s) && Text(line[..], s) == t[..p - s + 1]
      invariant Rtrim(t) == Rtrim(t[..p - s + 1])
      invariant forall k | 0 <= k < line.Length && !(s <= k < s + |t|) :: line[k] == a[k]
      decreases p
    {
      TrimStep(line[..], s, t, p);
      ghost var b := line[..];
      line[p] := 0;
      assert line[..] == b[p := 0];
      if p == s {
        break;
      }
      p := p - 1;
    }
    TrimEnd(line[..], s, t, p);
  }

  /** One byte of white space less. */
  lemma TrimStep(a: seq<byte>, s: nat, t: seq<byte>, p: nat)
    requires s <= p < s + |t| && p < |a| && IsSpace(a[p]) && Terminated(a, s) && Text(a, s) == t[..p - s + 1]
    ensures Terminated(a[p := 0], s) && Text(a[p := 0], s) == t[..p - s]
    ensures Rtrim(t[..p - s + 1]) == Rtrim(t[..p - s])
  {
    TextAt(a, s, p - s);
    TextCut(a, s, p - s);
    assert t[..p - s + 1][..p - s] == t[..p - s];
  }

  lemma TrimEnd(a: seq<byte>, s: nat, t: seq<byte>, p: nat)
    requires s <= p < s + |t| && p < |a| && Terminated(a, s)
    requires (Text(a, s) == t[..p - s + 1] && !IsSpace(a[p]) && Rtrim(t) == Rtrim(t[..p - s + 1]))
             || (Text(a, s) == [] && Rtrim(t) == [])
    ensures Text(a, s) == Rtrim(t)
  {
    if Text(a, s) != [] { TextAt(a, s, p - s); }
  }

  // ----- the table -----

  lemma CommentCase(defs: seq<Def>, t: seq<byte>, k: nat)
    requires k == SkipSpace(t)
    ensures k == |t| || t[k] == HASH ==> ConfigFile.ParseLine(defs, t) == (defs, 0)
  {
    hide SkipSpace, ConfigFile.Fields, Assign;
  }

  /** What becomes of a line whose name starts at `k` and whose equals sign is expected at `e`. */
  lemma LineCases(defs: seq<Def>, t: seq<byte>, k: nat, e: nat)
    requires k == SkipSpace(t) && k < |t| && t[k] != HASH
    requires var n := NameLen(t[k..]); e == k + n + SkipSpace(t[k..][n..])
    ensures e <= |t| && k <= e
    ensures e == |t| || t[e] != EQ || Rtrim(t[k..e]) == [] ==> ConfigFile.ParseLine(defs, t) == (defs, -1)
    ensures e < |t| && t[e] == EQ && Rtrim(t[k..e]) != [] ==>
      var val := t[e + 1..];
      ConfigFile.ParseLine(defs, t) == Assign(defs, Rtrim(t[k..e]), Rtrim(val[SkipSpace(val)..]))
  {
    hide SkipSpace, NameLen, Rtrim, Assign;
    var name := t[k..];
    assert name[..e - k] == t[k..e];
    if e < |t| { assert name[e - k + 1..] == t[e + 1..]; }
  }

  class Config {
    var defs: seq<Def>

    constructor (defs: seq<Def>)
      ensures this.defs == defs
    {
      this.defs := defs;
    }

    /** `cfg_parse_assign` */
    method AssignVar(name: seq<byte>, val: seq<byte>) returns (r: int)
      modifies this
      ensures (defs, r) == Assign(old(defs), name, val)
    {
      var i := 0;
      while i < |defs|
        invariant i <= |defs| && defs == old(defs)
        invariant IndexOfDef(defs, name) == i + IndexOfDef(defs[i..], name)
      {
        assert defs[i..][1..] == defs[i + 1..];
        if name == defs[i].name {
          match defs[i].v {
            case IntVar(_) => defs := defs[i := defs[i].(v := IntVar(ToInt(Strtol(val))))];
            case StrVar(_) => defs := defs[i := defs[i].(v := StrVar(val))];
            case OtherVar => assert defs[i := defs[i].(v := OtherVar)] == defs;
          }
          return 0;
        }
        i := i + 1;
      }
      return -1;
    }

    /** `cfg_parse_line`: the line in the buffer is cut into name and value. */
    method ParseLineInPlace(line: array<byte>) returns (r: int)
      requires Terminated(line[..], 0)
      modifies this, line
      ensures (defs, r) == ConfigFile.ParseLine(old(defs), Text(old(line[..]), 0))
    {
      hide *;
      TextBounds(line[..], 0);
      ghost var a := line[..];
      ghost var t := Text(a, 0);
      var name := SkipWs(line, 0);
      EqualsAt(a, t, name);
      CommentCase(defs, t, name);
      if line[name] == HASH || line[name] == 0 {
        return 0;
      }
      r := ParseNamed(line, t, name);
    }

    /** The rest of `cfg_parse_line`, from the name on. */
    method ParseNamed(line: array<byte>, ghost t: seq<byte>, name: nat) returns (r: int)
      requires Terminated(line[..], 0) && Text(line[..], 0) == t
      requires name == SkipSpace(t) && name < |t| && t[name] != HASH
      requires Terminated(line[..], name) && Text(line[..], name) == t[name..]
      modifies this, line
      ensures (defs, r) == ConfigFile.ParseLine(old(defs), t)
    {
      assert EQ != 0;
      hide *;
      var eq := FindEquals(line, t, name);
      LineCases(defs, t, name, eq);
      EqualsAt(line[..], t, eq);
      if line[eq] != EQ {
        return -1;
      }
      var v := CutFields(line, t, name, eq);
      if line[name] == 0 {
        return -1;
      }
      r := AssignVar(CStr(line[name..]), CStr(line[v..]));
    }

    /** Behind the name and the white space that follows it. */
    static method FindEquals(line: array<byte>, ghost t: seq<byte>, name: nat) returns (eq: nat)
      requires name <= |t| && Terminated(line[..], name) && Text(line[..], name) == t[name..]
      ensures var n := NameLen(t[name..]); eq == name + n + SkipSpace(t[name..][n..])
    {
      hide *;
      var end := SkipName(line, name);
      eq := SkipWs(line, end);
    }

    /** `cfg_parse_fp` over the file's text: false for the result -1. */
    method ParseFp(text: seq<byte>) returns (ok: bool)
      modifies this
      ensures var (d, r) := ParseText(old(defs), text); defs == d && (ok <==> r == 0)
    {
      var r := 0;
      var line := new byte[LINE_MAX](_ => 0);
      hide *;
      var rest := text;
      ghost var d, total := ParseText(defs, text).0, ParseText(defs, text).1;
      while rest != []
        invariant fresh(line) && line.Length == LINE_MAX
        invariant r <= 0 && ParseText(defs, rest).0 == d && ParseText(defs, rest).1 == total - r
        decreases |rest|
      {
        ParseTextNext(defs, rest);
        var n, x := ParseNext(line, rest);
        r := r + x;
        rest := rest[n..];
      }
      ParseTextEnd(defs);
      return r == 0;
    }

    /** One round of the loop: a line is read and parsed. */
    method ParseNext(line: array<byte>, text: seq<byte>) returns (n: nat, r: int)
      requires text != [] && line.Length == LINE_MAX
      modifies this, line
      ensures n == |Fgets(text, LINE_MAX)|
      ensures (defs, r) == ConfigFile.ParseLine(old(defs), CStr(Fgets(text, LINE_MAX)))
    {
      hide *;
      n := FgetsInto(line, text);
      r := ParseLineInPlace(line);
    }

    /** `fgets`: the next line, or as much of it as fits, and a terminator. */
    static method FgetsInto(line: array<byte>, text: seq<byte>) returns (n: nat)
      requires text != [] && line.Length == LINE_MAX
      modifies line
      ensures n == |Fgets(text, LINE_MAX)| < LINE_MAX
      ensures Terminated(line[..], 0) && Text(line[..], 0) == CStr(Fgets(text, LINE_MAX))
    {
      n := 0;
      while n < LINE_MAX - 1 && n < |text| && (n == 0 || text[n - 1] != LF)
        invariant n < LINE_MAX && n <= |text| && line[..n] == text[..n]
        invariant n > 0 ==> forall k | 0 <= k < n - 1 :: text[k] != LF
      {
        line[n] := text[n];
        n := n + 1;
      }
      line[n] := 0;
      assert text[..n] == Fgets(text, LINE_MAX);
      assert line[..n] == text[..n];
      TextOfCopy(line[..], text[..n]);
    }

    /** `cfg_write_fp`: what goes to the file. */
    method WriteFp() returns (text: seq<byte>)
      ensures text == ConfigFile.Render(defs)
    {
      text := [];
      for i := 0 to |defs|
        invariant ConfigFile.Render(defs) == text + ConfigFile.Render(defs[i..])
      {
        hide ConfigFile.Render, IntText;
        RenderNext(defs, i);
        Assoc(text, RenderDef(defs[i]), ConfigFile.Render(defs[i + 1..]));
        match defs[i].v {
          case IntVar(n) => text := text + (defs[i].name + ([EQ] + (IntText(n) + [LF])));
          case StrVar(s) => text := text + (defs[i].name + ([EQ] + (s + [LF])));
          case OtherVar =>
        }
      }
    }

    /** Terminates the name at the equals sign, and trims name and value. */
    static method CutFields(line: array<byte>, ghost t: seq<byte>, name: nat, eq: nat) returns (v: nat)
      requires name <= eq < |t| && eq < line.Length
      requires Terminated(line[..], name) && Text(line[..], name) == t[name..]
      requires Terminated(line[..], eq + 1) && Text(line[..], eq + 1) == t[eq + 1..]
      modifies line
      ensures name < line.Length && CStr(line[name..]) == Rtrim(t[name..eq])
      ensures line[name] == 0 <==> Rtrim(t[name..eq]) == []
      ensures v < line.Length
      ensures line[name] != 0 ==> var val := t[eq + 1..]; CStr(line[v..]) == Rtrim(val[SkipSpace(val)..])
    {
      hide SkipSpace, Rtrim, CStr, IsSpace, Text, Terminated;
      ghost var a := line[..];
      TextBounds(a, name);
      v := eq;
      line[eq] := 0;
      CutName(a, line[..], t, name, eq);
      RtrimInPlace(line, name);
      ghost var b := line[..];
      TextOf(b, name);
      EmptyText(b, name);
      if line[name] == 0 {
        return;
      }
      KeptValue(a, b, eq);
      v := SkipWs(line, eq + 1);
      TextBounds(line[..], v);
      RtrimInPlace(line, v);
      KeptName(b, line[..], name, v, eq);
      TextOf(line[..], name);
      TextOf(line[..], v);
    }
  }

  lemma {:induction false} CStrTwice(a: seq<byte>, b: seq<byte>)
    ensures CStr(a + [0] + b) == CStr(a)
  {
    var s := a + [0] + b;
    if a == [] {
      assert s[0] == 0;
    } else {
      assert s[1..] == a[1..] + [0] + b;
      CStrTwice(a[1..], b);
    }
  }

  lemma ParseTextEnd(defs: seq<Def>)
    ensures ParseText(defs, []) == (defs, 0)
  {}

  lemma ParseTextNext(defs: seq<Def>, text: seq<byte>)
    requires text != []
    ensures var chunk := Fgets(text, LINE_MAX);
            var (d, r) := ConfigFile.ParseLine(defs, CStr(chunk));
            var (d', sum) := ParseText(d, text[|chunk|..]);
            ParseText(defs, text) == (d', r + sum) && r <= 0 && sum <= 0
  {
    hide ConfigFile.Fields, Fgets, CStr;
    ParseTextSum(ConfigFile.ParseLine(defs, CStr(Fgets(text, LINE_MAX))).0, text[|Fgets(text, LINE_MAX)|..]);
  }

  /** Failures never cancel out. */
  lemma {:induction false} ParseTextSum(defs: seq<Def>, text: seq<byte>)
    ensures ParseText(defs, text).1 <= 0
    decreases |text|
  {
    hide ConfigFile.Fields, CStr;
    if text != [] {
      var chunk := Fgets(text, LINE_MAX);
      ParseTextSum(ConfigFile.ParseLine(defs, CStr(chunk)).0, text[|chunk|..]);
    }
  }

  lemma TextOfCopy(a: seq<byte>, t: seq<byte>)
    requires |t| < |a| && a[..|t|] == t && a[|t|] == 0
    ensures Terminated(a, 0) && Text(a, 0) == CStr(t)
  {
    CStrTwice(t, a[|t| + 1..]);
    HasEnd(a, |t|);
    hide CStr, Terminated;
    CutAt(a, |t|);
  }

  lemma HasEnd(a: seq<byte>, k: nat)
    requires k < |a| && a[k] == 0
    ensures Terminated(a, 0)
  {
    assert a[0..][k] == 0;
  }

  lemma CutAt(a: seq<byte>, k: nat)
    requires k < |a|
    ensures a[0..] == a[..k] + [a[k]] + a[k + 1..]
  {}

  lemma TextBounds(a: seq<byte>, s: nat)
    requires Terminated(a, s)
    ensures s < |a|
  {}

  lemma TextOf(a: seq<byte>, s: nat)
    requires s <= |a|
    ensures Text(a, s) == CStr(a[s..])
  {}

  lemma EmptyText(a: seq<byte>, s: nat)
    requires Terminated(a, s)
    ensures a[s] == 0 <==> Text(a, s) == []
  {
    TextStep(a, s);
  }

  /** The byte at `eq` and the text behind it. */
  lemma EqualsAt(a: seq<byte>, t: seq<byte>, eq: nat)
    requires Terminated(a, 0) && t == Text(a, 0) && eq <= |t|
    ensures eq < |a| && (a[eq] == 0 <==> eq == |t|) && (eq < |t| ==> a[eq] == t[eq])
    ensures eq < |t| ==> Terminated(a, eq + 1) && Text(a, eq + 1) == t[eq + 1..]
  {
    TextAt(a, 0, eq);
    if eq < |t| { TextAt(a, 0, eq + 1); }
  }

  /** The terminator over the equals sign ends the name; the value behind it is untouched. */
  lemma CutName(a: seq<byte>, b: seq<byte>, t: seq<byte>, name: nat, eq: nat)
    requires name <= eq < |t| && eq < |a| && b == a[eq := 0] && Terminated(a, name) && Text(a, name) == t[name..]
    ensures Terminated(b, name) && Text(b, name) == t[name..eq]
  {
    TextCut(a, name, eq - name);
    assert t[name..][..eq - name] == t[name..eq];
  }

  lemma KeptValue(a: seq<byte>, b: seq<byte>, eq: nat)
    requires Terminated(a, eq + 1) && |b| == |a| && forall k | eq < k < |a| :: b[k] == a[k]
    ensures Terminated(b, eq + 1) && Text(b, eq + 1) == Text(a, eq + 1)
  {
    TextSame(a, b, eq + 1);
  }

  lemma KeptName(b: seq<byte>, c: seq<byte>, name: nat, v: nat, eq: nat)
    requires Terminated(b, name) && name + |Text(b, name)| <= eq < v && |c| == |b|
    requires forall k | 0 <= k < v && k < |b| :: c[k] == b[k]
    ensures Terminated(c, name) && Text(c, name) == Text(b, name)
  {
    TextSame(b, c, name);
  }
}
