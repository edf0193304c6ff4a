/** The text form of the user database (srvuserdb.c `udb_load`, `udb_save`): one line per account, a
    hexadecimal id, the name and the key, separated by bars. */
module UserFile {
  import opened Bytes
  import opened Message

  const DELIM: byte := 124     // '|'
  const LF: byte := 10
  const CR: byte := 13
  const LINE_SIZE := 16000     // the static line buffer

  datatype Entry = Entry(id: u64, name: seq<byte>, key: seq<byte>)

  /** Index of the first `c` in `s`, or its length. */
  function Find(s: seq<byte>, c: byte): (k: nat)
    ensures k <= |s| && forall i | 0 <= i < k :: s[i] != c
    ensures k < |s| ==> s[k] == c
  {
    if s == [] || s[0] == c then 0 else 1 + Find(s[1..], c)
  }

  // ----- hexadecimal numbers -----

  predicate IsSpace(c: byte) { c == 32 || 9 <= c <= 13 }

  function HexDigit(d: nat): byte
    requires d < 16
  {
    if d < 10 then 48 + d else 87 + d
  }

  function HexVal(c: byte): Option<nat> {
    if 48 <= c <= 57 then Some(c - 48)
    else if 97 <= c <= 102 then Some(c - 87)
    else if 65 <= c <= 70 then Some(c - 55)
    else None
  }

  /** `%0*x` for a number that fits `n` digits */
  function Hex(v: nat, n: nat): (r: seq<byte>)
    ensures |r| == n
  {
    if n == 0 then [] else Hex(v / 16, n - 1) + [HexDigit(v % 16)]
  }

  function Digits(s: seq<byte>): (k: nat)
    ensures k <= |s|
    ensures forall i | 0 <= i < k :: HexVal(s[i]).Some?
  {
    if s == [] || HexVal(s[0]).None? then 0 else 1 + Digits(s[1..])
  }

  function Value(s: seq<byte>): nat
    requires forall i | 0 <= i < |s| :: HexVal(s[i]).Some?
  {
    if s == [] then 0 else 16 * Value(s[..|s| - 1]) + HexVal(s[|s| - 1]).value
  }

  function SkipSpace(s: seq<byte>): (k: nat)
    ensures k <= |s|
  {
    if s == [] || !IsSpace(s[0]) then 0 else 1 + SkipSpace(s[1..])
  }

  /** `strtoull(s, &end, 16)`: the number and the index where scanning stopped. */
  function Strtoull(s: seq<byte>): (r: (u64, nat))
    ensures r.1 <= |s|
  {
    var i := SkipSpace(s);
    var neg := i < |s| && s[i] == 45;
    var j := if neg || (i < |s| && s[i] == 43) then i + 1 else i;
    var h := if j + 2 < |s| && s[j] == 48 && s[j + 1] in {120, 88} && HexVal(s[j + 2]).Some? then j + 2 else j;
    var k := Digits(s[h..]);
    if k == 0 then (0, 0)
    else
      var v := Value(s[h..][..k]);
      if v >= 0x1_0000_0000_0000_0000 then (0xFFFF_FFFF_FFFF_FFFF, h + k)
      else if neg && v > 0 then (0x1_0000_0000_0000_0000 - v, h + k)
      else (v, h + k)
  }

  // ----- lines -----

  /** The fields of a line, followed by `tail`. */
  function Fields(e: Entry, tail: seq<byte>): seq<byte> {
    Hex(e.id, 16) + ([DELIM] + (e.name + ([DELIM] + (e.key + tail))))
  }

  function RenderLine(e: Entry): seq<byte> { Fields(e, [LF]) }

  function Render(l: seq<Entry>): seq<byte> {
    if l == [] then [] else RenderLine(l[0]) + Render(l[1..])
  }

  /** `fgets`: up to and including a newline, at most one byte less than the buffer. */
  function Fgets(s: seq<byte>, size: nat): (r: seq<byte>)
    requires s != [] && size > 1
    ensures r <= s && 0 < |r| < size
  {
    var k := Find(s, LF);
    var n := if k < |s| then k + 1 else k;
    if n < size then s[..n] else s[..size - 1]
  }

  /** The key is cut at the first carriage return, or else at the first newline. */
  function CutEol(s: seq<byte>): seq<byte> {
    if CR in s then s[..Find(s, CR)] else s[..Find(s, LF)]
  }

  /** The account on a line, if the line is well formed. */
  function ParseLine(chunk: seq<byte>): Option<Entry> {
    var line := CStr(chunk);
    var (id, end) := Strtoull(line);
    if id == 0 || end == |line| || line[end] != DELIM then None
    else
      var rest := line[end + 1..];
      var k := Find(rest, DELIM);
      if k == |rest| then None
      else Some(Entry(id, rest[..k], CutEol(rest[k + 1..])))
  }

  // ----- a line that is read back -----

  lemma {:induction false} HexOfDigits(v: nat, n: nat)
    ensures forall i | 0 <= i < n ::
              HexVal(Hex(v, n)[i]).Some? && !IsSpace(Hex(v, n)[i]) && Hex(v, n)[i] !in {43, 45, 120, 88, 0, 10, 124}
  {
    if n > 0 { HexOfDigits(v / 16, n - 1); }
  }

  function Pow16(n: nat): nat { if n == 0 then 1 else 16 * Pow16(n - 1) }

  lemma {:induction false} ValueOfHex(v: nat, n: nat)
    requires v < Pow16(n)
    ensures forall i | 0 <= i < n :: HexVal(Hex(v, n)[i]).Some?
    ensures Value(Hex(v, n)) == v
  {
    HexOfDigits(v, n);
    if n > 0 {
      ValueOfHex(v / 16, n - 1);
      assert Hex(v, n)[..n - 1] == Hex(v / 16, n - 1);
    }
  }

  lemma {:induction false} DigitsThenStop(a: seq<byte>, b: seq<byte>)
    requires forall i | 0 <= i < |a| :: HexVal(a[i]).Some?
    requires b != [] && HexVal(b[0]).None?
    ensures Digits(a + b) == |a|
  {
    if a == [] {
      assert a + b == b;
    } else {
      assert (a + b)[1..] == a[1..] + b;
      DigitsThenStop(a[1..], b);
    }
  }

  lemma ReadHex(id: u64, rest: seq<byte>)
    requires rest != [] && HexVal(rest[0]).None?
    ensures Strtoull(Hex(id, 16) + rest) == (id, 16)
  {
    var h := Hex(id, 16);
    var s := h + rest;
    HexOfDigits(id, 16);
    assert s[0] == h[0] && s[1] == h[1];
    assert SkipSpace(s) == 0;
    assert Pow16(8) == 0x1_0000_0000;
    assert Pow16(12) == 0x1_0000_0000_0000;
    assert Pow16(16) == 0x1_0000_0000_0000_0000;
    ValueOfHex(id, 16);
    DigitsThenStop(h, rest);
    assert s[0..] == s && s[0..16] == h;
  }

  /** What the file format can carry: `RoundTripExactly` in UserDbExact.dfy shows that it carries nothing else. */
  predicate Storable(e: Entry) {
    && e.id != 0 && 0 !in e.name && 0 !in e.key
    && DELIM !in e.name && LF !in e.name
    && LF !in e.key && CR !in e.key
    && 19 + |e.name| + |e.key| <= LINE_SIZE
  }

  lemma ParseFields(id: u64, name: seq<byte>, key: seq<byte>)
    requires id != 0 && 0 !in name && 0 !in key && DELIM !in name
    ensures ParseLine(Hex(id, 16) + ([DELIM] + (name + ([DELIM] + key)))) == Some(Entry(id, name, CutEol(key)))
  {
    var h, rest := Hex(id, 16), name + ([DELIM] + key);
    var line := h + ([DELIM] + rest);
    HexOfDigits(id, 16);
    assert 0 !in h && 0 !in line;
    ReadHex(id, [DELIM] + rest);
    hide Hex, Strtoull, CutEol, CStr, Find;
    AfterFirst(h, rest);
    Split(name, key);
  }

  lemma AfterFirst(h: seq<byte>, rest: seq<byte>)
    ensures var line := h + ([DELIM] + rest);
            line[|h|] == DELIM && line[|h| + 1..] == rest
  {}

  lemma Split(name: seq<byte>, key: seq<byte>)
    requires DELIM !in name
    ensures var rest := name + ([DELIM] + key);
            Find(rest, DELIM) == |name| && rest[..|name|] == name && rest[|name| + 1..] == key
  {
    var tail := [DELIM] + key;
    var rest := name + tail;
    assert rest[|name|] == DELIM && forall i | 0 <= i < |name| :: rest[i] == name[i];
    assert rest[|name|..] == tail && tail[1..] == key;
    assert rest[|name| + 1..] == rest[|name|..][1..];
  }

  lemma CutTail(key: seq<byte>, tail: seq<byte>)
    requires LF !in key && CR !in key && tail in {[], [LF]}
    ensures CutEol(key + tail) == key
  {
    var s := key + tail;
    assert CR !in s;
    assert forall i | 0 <= i < |key| :: s[i] == key[i] != LF;
    assert tail == [LF] ==> s[|key|] == LF;
    assert Find(s, LF) == |key|;
  }

  /** A stored account is parsed back from its line, with or without the final newline. */
  lemma ParseRendered(e: Entry, tail: seq<byte>)
    requires Storable(e) && tail in {[], [LF]}
    ensures ParseLine(Fields(e, tail)) == Some(e)
  {
    ParseFields(e.id, e.name, e.key + tail);
    CutTail(e.key, tail);
  }
}
