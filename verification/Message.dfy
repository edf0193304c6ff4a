/** The wire format: header fields, message classes and TLV attributes (message.h, message.c).

    `Msg` is a whole message as a value, `Marshal` its bytes on the wire.  The buffer `Mbuf` of the
    program is the class in Mbuf.dfy; every operation of the buffer is proved against the functions
    of this module. */
module Message {
  import opened Bytes

  const MSG_HDR_SIZE := 40
  const MSG_MAX_PAY_SIZE := 65400
  const MSG_MAX_SIZE := MSG_HDR_SIZE + MSG_MAX_PAY_SIZE

  function Roundup8(n: nat): nat { (n + 7) / 8 * 8 }

  // ----- message types -----

  const MCLASS_IND: u16 := 0
  const MCLASS_REQ: u16 := 1
  const MCLASS_RES: u16 := 2
  const MCLASS_ERR: u16 := 10

  const LOGIN: u16 := 0x0010
  const AUTH: u16 := 0x0020
  const LOGOUT: u16 := 0x0030
  const REGISTER: u16 := 0x0040
  const DROP: u16 := 0x0050
  const PEERLIST: u16 := 0x00a0
  const OFFER: u16 := 0x0110
  const GETFILE: u16 := 0x0120
  const PING: u16 := 0x0200

  const LOGIN_REQ: u16 := 0x0011
  const LOGIN_RES: u16 := 0x0012
  const AUTH_REQ: u16 := 0x0021
  const AUTH_RES: u16 := 0x0022
  const AUTH_ERR: u16 := 0x002a
  const LOGOUT_REQ: u16 := 0x0031
  const LOGOUT_RES: u16 := 0x0032
  const REGISTER_REQ: u16 := 0x0041
  const REGISTER_RES: u16 := 0x0042
  const DROP_REQ: u16 := 0x0051
  const DROP_RES: u16 := 0x0052
  const PEERLIST_REQ: u16 := 0x00a1
  const PEERLIST_RES: u16 := 0x00a2
  const OFFER_IND: u16 := 0x0110
  const OFFER_REQ: u16 := 0x0111
  const OFFER_RES: u16 := 0x0112
  const OFFER_ERR: u16 := 0x011a
  const GETFILE_REQ: u16 := 0x0121
  const GETFILE_RES: u16 := 0x0122
  const GETFILE_ERR: u16 := 0x012a
  const PING_IND: u16 := 0x0200
  const PING_REQ: u16 := 0x0201
  const PING_RES: u16 := 0x0202
  const PING_ERR: u16 := 0x020a

  /** The class is in the four low bits, the family in the others. */
  function Class(t: u16): u16 { t % 16 }
  function Family(t: u16): u16 { t - t % 16 }
  function ToRes(t: u16): u16 { Family(t) + MCLASS_RES }
  function ToErr(t: u16): u16 { Family(t) + MCLASS_ERR }

  lemma ErrOfRes(t: u16)
    ensures ToErr(ToRes(t)) == ToErr(t)
  {
    assert t == 16 * (t / 16) + t % 16;
    assert ToRes(t) == 16 * (t / 16) + 2;
  }

  predicate IsReq(t: u16) { Class(t) == MCLASS_REQ }
  predicate IsRes(t: u16) { Class(t) == MCLASS_RES }

  // ----- attribute types -----

  const ATTR_INVALID: u16 := 0
  const USERNAME: u16 := 0x0001
  const PUBKEY: u16 := 0x0002
  const CHALLENGE: u16 := 0x0003
  const DIGEST: u16 := 0x0004
  const SIGNATURE: u16 := 0x0005
  const PEERID: u16 := 0x0010
  const PEERNAME: u16 := 0x0011
  const OFFERID: u16 := 0x0021
  const FILENAME: u16 := 0x0022
  const SIZE: u16 := 0x0023
  const OFFSET: u16 := 0x0025
  const DATA: u16 := 0x0026
  const OK: u16 := 0x0041
  const ERROR: u16 := 0x0042
  const NOTICE: u16 := 0x0043

  // ----- messages -----

  datatype Msg = Msg(mtype: u16, rfu: u32, ts: u64, src: u64, dst: u64, trf: u64, pay: seq<byte>)
  {
    predicate Fits() { |pay| <= MSG_MAX_PAY_SIZE }
  }

  function Get2(b: seq<byte>, off: nat): u16
    requires off + 2 <= |b|
  {
    Powers(); FromBe(b[off..off + 2])
  }

  function Get4(b: seq<byte>, off: nat): u32
    requires off + 4 <= |b|
  {
    Powers(); FromBe(b[off..off + 4])
  }

  function Get8(b: seq<byte>, off: nat): u64
    requires off + 8 <= |b|
  {
    Powers(); FromBe(b[off..off + 8])
  }

  function HdrGetPaylen(b: seq<byte>): u16
    requires |b| >= MSG_HDR_SIZE
  {
    Get2(b, 2)
  }

  function Header(m: Msg): (r: seq<byte>)
    ensures |r| == MSG_HDR_SIZE
  {
    Be(m.mtype, 2) + Be(|m.pay|, 2) + Be(m.rfu, 4) + Be(m.ts, 8) + Be(m.src, 8) + Be(m.dst, 8) + Be(m.trf, 8)
  }

  function Marshal(m: Msg): (r: seq<byte>)
    ensures |r| == MSG_HDR_SIZE + |m.pay|
  {
    Header(m) + m.pay
  }

  function Unmarshal(b: seq<byte>): Msg
    requires |b| >= MSG_HDR_SIZE
  {
    Msg(Get2(b, 0), Get4(b, 4), Get8(b, 8), Get8(b, 16), Get8(b, 24), Get8(b, 32), b[MSG_HDR_SIZE..])
  }

  /** The header's length field counts the payload. */
  predicate Sound(b: seq<byte>) {
    MSG_HDR_SIZE <= |b| <= MSG_MAX_SIZE && HdrGetPaylen(b) == |b| - MSG_HDR_SIZE
  }

  lemma HeaderSlices(m: Msg)
    ensures var b := Marshal(m);
            && b[0..2] == Be(m.mtype, 2) && b[2..4] == Be(|m.pay|, 2) && b[4..8] == Be(m.rfu, 4)
            && b[8..16] == Be(m.ts, 8) && b[16..24] == Be(m.src, 8)
            && b[24..32] == Be(m.dst, 8) && b[32..40] == Be(m.trf, 8) && b[40..] == m.pay
  {
    var b := Marshal(m);
    var h2 := Be(m.mtype, 2);
    var h4 := h2 + Be(|m.pay|, 2);
    var h8 := h4 + Be(m.rfu, 4);
    var h16 := h8 + Be(m.ts, 8);
    var h24 := h16 + Be(m.src, 8);
    var h32 := h24 + Be(m.dst, 8);
    var h40 := h32 + Be(m.trf, 8);
    assert b == h40 + m.pay;
    assert b[..40] == h40;
    assert h40[..32] == h32 && h32[..24] == h24 && h24[..16] == h16 && h16[..8] == h8 && h8[..4] == h4;
    assert b[32..40] == h40[32..40] && b[24..32] == h32[24..32] && b[16..24] == h24[16..24];
    assert b[8..16] == h16[8..16] && b[4..8] == h8[4..8] && b[2..4] == h4[2..4];
  }

  lemma UnmarshalMarshal(m: Msg)
    requires m.Fits()
    ensures Unmarshal(Marshal(m)) == m && Sound(Marshal(m))
  {
    HeaderSlices(m);
    Powers();
    FromBeBe(m.mtype, 2); FromBeBe(|m.pay|, 2); FromBeBe(m.rfu, 4); FromBeBe(m.ts, 8);
    FromBeBe(m.src, 8); FromBeBe(m.dst, 8); FromBeBe(m.trf, 8);
  }

  lemma MarshalUnmarshal(b: seq<byte>)
    requires Sound(b)
    ensures Marshal(Unmarshal(b)) == b
  {
    BeFromBe(b[0..2]); BeFromBe(b[2..4]); BeFromBe(b[4..8]); BeFromBe(b[8..16]);
    BeFromBe(b[16..24]); BeFromBe(b[24..32]); BeFromBe(b[32..40]);
    assert b == b[0..2] + b[2..4] + b[4..8] + b[8..16] + b[16..24] + b[24..32] + b[32..40] + b[40..];
  }

  // ----- attributes -----

  datatype Attr = Attr(t: u16, val: seq<byte>)

  function EncAttr(a: Attr): (r: seq<byte>)
    ensures |r| == 8 + Roundup8(|a.val|)
  {
    Be(a.t, 2) + Be(|a.val|, 2) + Be(0, 4) + a.val + Zeros(Roundup8(|a.val|) - |a.val|)
  }

  function EncAttrs(l: seq<Attr>): seq<byte> {
    if l == [] then [] else EncAttrs(l[..|l| - 1]) + EncAttr(l[|l| - 1])
  }

  /** A functional parser of type-length-value records, independent of the decoding cursor. */
  function Tlv(p: seq<byte>): seq<Attr>
    decreases |p|
  {
    if |p| < 8 then []
    else
      var len := Get2(p, 2) as nat;
      if |p| < 8 + len then []
      else
        var used := if 8 + Roundup8(len) <= |p| then 8 + Roundup8(len) else |p|;
        [Attr(Get2(p, 0), p[8..8 + len])] + Tlv(p[used..])
  }

  function AddAttr(m: Msg, t: u16, val: seq<byte>): Msg {
    m.(pay := m.pay + EncAttr(Attr(t, val)))
  }

  function Attrs(m: Msg): seq<Attr> { Tlv(m.pay) }

  /** Decoding consumes exactly what encoding appended, whatever follows. */
  lemma TlvOfEncAttr(a: Attr, rest: seq<byte>)
    requires |a.val| < 0x1_0000
    ensures Tlv(EncAttr(a) + rest) == [a] + Tlv(rest)
  {
    EncAttrSlices(a, rest);
    Powers();
    FromBeBe(a.t, 2); FromBeBe(|a.val|, 2);
    hide EncAttr, Be;
  }

  lemma EncAttrSlices(a: Attr, rest: seq<byte>)
    ensures var p := EncAttr(a) + rest;
            && p[0..2] == Be(a.t, 2) && p[2..4] == Be(|a.val|, 2) && p[8..8 + |a.val|] == a.val
            && p[8 + Roundup8(|a.val|)..] == rest
  {
    hide Be, Zeros;
    var p := EncAttr(a) + rest;
    var pad := Zeros(Roundup8(|a.val|) - |a.val|);
    assert p == Be(a.t, 2) + (Be(|a.val|, 2) + (Be(0, 4) + (a.val + (pad + rest))));
    assert p[8..] == a.val + (pad + rest);
    assert p[8..][..|a.val|] == a.val;
  }

  lemma TlvEmpty()
    ensures Tlv([]) == []
  {}

  ghost predicate Encodable(l: seq<Attr>) {
    forall a <- l :: |a.val| < 0x1_0000
  }

  lemma {:induction false} TlvOfEncAttrs(l: seq<Attr>, rest: seq<byte>)
    requires Encodable(l)
    ensures Tlv(EncAttrs(l) + rest) == l + Tlv(rest)
    decreases |l|
  {
    hide Tlv, EncAttr;
    if l == [] {
      assert EncAttrs(l) + rest == rest;
    } else {
      var k := |l| - 1;
      var front, a := l[..k], l[k];
      TlvOfEncAttrs(front, EncAttr(a) + rest);
      TlvOfEncAttr(a, rest);
      Assoc(EncAttrs(front), EncAttr(a), rest);
      Assoc(front, [a], Tlv(rest));
      assert l == front + [a];
    }
  }

  lemma Assoc<T>(a: seq<T>, b: seq<T>, c: seq<T>)
    ensures a + b + c == a + (b + c)
  {}

  /** Payloads built by appending attributes decode to exactly those attributes, then to an error. */
  lemma EncodeDecode(l: seq<Attr>)
    requires Encodable(l)
    ensures Tlv(EncAttrs(l)) == l && |EncAttrs(l)| % 8 == 0
  {
    TlvOfEncAttrs(l, []);
    assert EncAttrs(l) + [] == EncAttrs(l);
    var k := EncAttrsBlocks(l);
    hide EncAttrs, Tlv, Encodable;
    MultipleOf8(k);
  }

  lemma MultipleOf8(k: nat)
    ensures 8 * k % 8 == 0
  {}

  /** The number of 8-byte blocks of a list of attributes. */
  lemma {:induction false} EncAttrsBlocks(l: seq<Attr>) returns (k: nat)
    ensures |EncAttrs(l)| == 8 * k
  {
    k := 0;
    if l != [] {
      hide EncAttr, Roundup8;
      k := EncAttrsBlocks(l[..|l| - 1]);
      k := k + EncAttrBlocks(l[|l| - 1]);
    }
  }

  function EncAttrBlocks(a: Attr): (k: nat)
    ensures |EncAttr(a)| == 8 * k
  {
    (|a.val| + 7) / 8 + 1
  }

  lemma EncAttrsSnoc(l: seq<Attr>, a: Attr)
    ensures EncAttrs(l + [a]) == EncAttrs(l) + EncAttr(a)
  {
    assert (l + [a])[..|l|] == l;
  }

  // ----- replies -----

  /** Same family and transaction, class response, source and destination swapped, no payload. */
  function Response(m: Msg, ts: u64): Msg {
    Msg(ToRes(m.mtype), 0, ts, m.dst, m.src, m.trf, [])
  }

  function ErrorResponse(m: Msg, ec: u64, text: seq<byte>, ts: u64): Msg {
    AddAttr(AddAttr(Response(m, ts).(mtype := ToErr(m.mtype)), ERROR, Be(ec, 8)), NOTICE, text + [0])
  }

  /** The text of a NUL-terminated attribute value. */
  function CStr(v: seq<byte>): (r: seq<byte>)
    ensures 0 !in r && |r| <= |v|
    ensures 0 !in v ==> r == v
  {
    if v == [] || v[0] == 0 then [] else [v[0]] + CStr(v[1..])
  }

  lemma {:induction false} CStrPrefix(s: seq<byte>)
    ensures CStr(s) <= s
  {
    if s != [] && s[0] != 0 { CStrPrefix(s[1..]); }
  }

  lemma {:induction false} CStrTerminated(s: seq<byte>, rest: seq<byte>)
    requires 0 !in s
    ensures CStr(s + [0] + rest) == s
  {
    var v := s + [0] + rest;
    if s != [] {
      assert v[1..] == s[1..] + [0] + rest;
      CStrTerminated(s[1..], rest);
      assert s == [s[0]] + s[1..];
    }
  }

  /** `text` is what stands in front of the first NUL. */
  predicate UpToNul(v: seq<byte>, text: seq<byte>) {
    text <= v && 0 !in text && (|text| == |v| || v[|text|] == 0)
  }

  lemma TextIs(v: seq<byte>, text: seq<byte>)
    requires UpToNul(v, text)
    ensures CStr(v) == text
  {
    if |text| < |v| {
      assert v == text + [0] + v[|text| + 1..];
      CStrTerminated(text, v[|text| + 1..]);
    }
  }

  lemma CutIs(v: seq<byte>)
    ensures UpToNul(v, CStr(v))
  {
    CStrPrefix(v);
    StopsAtNul(v);
  }

  lemma {:induction false} StopsAtNul(v: seq<byte>)
    ensures |CStr(v)| < |v| ==> v[|CStr(v)|] == 0
  {
    if v != [] && v[0] != 0 { StopsAtNul(v[1..]); }
  }

  /** The number read from an attribute value of eight bytes. */
  function U64Of(v: seq<byte>): u64 {
    if |v| < 8 then 0 else Get8(v, 0)
  }

  lemma U64OfBe(n: u64)
    ensures U64Of(Be(n, 8)) == n
  {
    Powers(); FromBeBe(n, 8);
    assert Be(n, 8)[0..8] == Be(n, 8);
  }

  // ----- the decoding cursor -----

  /** One decoding step at cursor `boff`: the attribute found there and the cursor after it. */
  function NextAttrib(b: seq<byte>, boff: nat): (r: Option<(Attr, nat)>)
    ensures r.Some? ==> boff + 8 + |r.value.0.val| <= |b| && boff + 8 <= r.value.1 <= |b| + 7
  {
    if |b| < boff + 8 then None
    else
      var len := Get2(b, boff + 2) as nat;
      if |b| < boff + 8 + len then None
      else Some((Attr(Get2(b, boff), b[boff + 8..boff + 8 + len]), boff + 8 + Roundup8(len)))
  }

  /** The attributes a loop over the cursor sees before the first error. */
  function Iterate(b: seq<byte>, boff: nat): seq<Attr>
    decreases |b| + 8 - boff
  {
    match NextAttrib(b, boff)
    case None => []
    case Some((a, next)) => [a] + Iterate(b, next)
  }

  lemma GetShift(b: seq<byte>, off: nat, i: nat)
    requires off + i + 2 <= |b|
    ensures Get2(b, off + i) == Get2(b[off..], i)
  {
    assert b[off..][i..i + 2] == b[off + i..off + i + 2];
  }

  lemma NextIsTlv(b: seq<byte>, boff: nat)
    requires boff <= |b|
    ensures match NextAttrib(b, boff)
            case None => Tlv(b[boff..]) == []
            case Some((a, next)) => Tlv(b[boff..]) == [a] + if next <= |b| then Tlv(b[next..]) else []
  {
    hide Get2, Roundup8;
    if boff + 8 <= |b| {
      GetShift(b, boff, 0);
      GetShift(b, boff, 2);
      var len := Get2(b, boff + 2) as nat;
      if boff + 8 + len <= |b| {
        SubSlices(b, boff, len, 8 + Roundup8(len));
      }
    }
  }

  lemma SubSlices(b: seq<byte>, boff: nat, len: nat, used: nat)
    requires boff + 8 + len <= |b|
    ensures b[boff..][8..8 + len] == b[boff + 8..boff + 8 + len]
    ensures used <= |b| - boff ==> b[boff..][used..] == b[boff + used..]
    ensures b[boff..][|b| - boff..] == []
  {}

  /** On any bytes at all, iterating the cursor is the functional parser. */
  lemma {:induction false} CursorIsTlv(b: seq<byte>, boff: nat)
    ensures Iterate(b, boff) == if boff <= |b| then Tlv(b[boff..]) else []
    ensures boff <= |b| ==> 8 * |Iterate(b, boff)| <= |b| - boff
    decreases |b| + 8 - boff
  {
    if boff <= |b| {
      NextIsTlv(b, boff);
      match NextAttrib(b, boff)
      case None =>
      case Some((a, next)) => CursorIsTlv(b, next);
    }
  }
}
