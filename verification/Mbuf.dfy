/** The message buffer (message.c): a header and a payload in one growable block, with one offset that
    serves as cursor for decoding and for partial I/O. */
module Buffer {
  import opened Bytes
  import opened Message

  /** Argument of `mbuf_addattrib` behind its length. */
  datatype Value = VNone | VU64(n: u64) | VStr(s: seq<byte>) | VBlob(d: seq<byte>)

  /** Encoding that the attribute type prescribes; other types are unrecognized. */
  datatype AvType = AvNone | AvU64 | AvStr | AvBlob

  function AvTypeOf(t: u16): Option<AvType> {
    if t == USERNAME || t == PEERNAME || t == FILENAME || t == NOTICE then Some(AvStr)
    else if t == PUBKEY || t == CHALLENGE || t == DIGEST || t == SIGNATURE || t == DATA then Some(AvBlob)
    else if t == PEERID || t == OFFERID || t == SIZE || t == OFFSET || t == ERROR then Some(AvU64)
    else if t == OK then Some(AvNone)
    else None
  }

  /** What callers must pass: the kind of value that belongs to the type, with its length. */
  predicate Passable(t: u16, length: nat, v: Value) {
    match AvTypeOf(t)
    case None => true
    case Some(AvNone) => true
    case Some(AvU64) => v.VU64?
    case Some(AvStr) => v.VStr? && 0 !in v.s && length == |v.s| + 1
    case Some(AvBlob) => v.VBlob? && length == |v.d|
  }

  /** The value octets an attribute carries. */
  function Octets(t: u16, v: Value): seq<byte> {
    match AvTypeOf(t)
    case Some(AvU64) => if v.VU64? then Be(v.n, 8) else []
    case Some(AvStr) => if v.VStr? then v.s + [0] else []
    case Some(AvBlob) => if v.VBlob? then v.d else []
    case _ => []
  }

  /** What each type carries: a text with its NUL, octets as they are, a number of eight octets, or nothing. */
  lemma TypesCarry(t: u16, v: Value)
    ensures AvTypeOf(t).None?
       <==> t !in {0x01, 0x02, 0x03, 0x04, 0x05, 0x10, 0x11, 0x21, 0x22, 0x23, 0x25, 0x26, 0x41, 0x42, 0x43}
    ensures t in {0x01, 0x11, 0x22, 0x43} && v.VStr? ==> Octets(t, v) == v.s + [0]
    ensures t in {0x02, 0x03, 0x04, 0x05, 0x26} && v.VBlob? ==> Octets(t, v) == v.d
    ensures t in {0x10, 0x21, 0x23, 0x25, 0x42} && v.VU64? ==> |Octets(t, v)| == 8 && FromBe(Octets(t, v)) == v.n
    ensures t == 0x41 ==> Octets(t, v) == []
  {
    if v.VU64? {
      Powers();
      FromBeBe(v.n, 8);
    }
  }

  function Put(b: seq<byte>, off: nat, n: nat, v: nat): (r: seq<byte>)
    requires off + n <= |b|
    ensures |r| == |b|
  {
    b[..off] + Be(v, n) + b[off + n..]
  }

  lemma PutGet(b: seq<byte>, off: nat, n: nat, v: nat, lo: nat, hi: nat)
    requires off + n <= |b| && lo <= hi <= |b|
    ensures hi <= off || off + n <= lo ==> Put(b, off, n, v)[lo..hi] == b[lo..hi]
    ensures lo == off && hi == off + n && v < Pow256(n) ==> FromBe(Put(b, off, n, v)[lo..hi]) == v
  {
    var r := Put(b, off, n, v);
    if hi <= off || off + n <= lo {
      assert forall k | lo <= k < hi :: r[k] == b[k];
    }
    if lo == off && hi == off + n && v < Pow256(n) {
      assert r[lo..hi] == Be(v, n);
      FromBeBe(v, n);
    }
  }

  /** A header write changes its own field only. */
  lemma PutField(b: seq<byte>, off: nat, n: nat, v: nat)
    requires |b| >= MSG_HDR_SIZE && v < Pow256(n)
    requires (off, n) in {(0, 2), (2, 2), (4, 4), (8, 8), (16, 8), (24, 8), (32, 8)}
    ensures var r := Put(b, off, n, v);
            && Get2(r, 0) == (if off == 0 then v else Get2(b, 0))
            && HdrGetPaylen(r) == (if off == 2 then v else HdrGetPaylen(b))
            && Get4(r, 4) == (if off == 4 then v else Get4(b, 4))
            && Get8(r, 8) == (if off == 8 then v else Get8(b, 8))
            && Get8(r, 16) == (if off == 16 then v else Get8(b, 16))
            && Get8(r, 24) == (if off == 24 then v else Get8(b, 24))
            && Get8(r, 32) == (if off == 32 then v else Get8(b, 32))
            && r[MSG_HDR_SIZE..] == b[MSG_HDR_SIZE..]
  {
    PutGet(b, off, n, v, 0, 2); PutGet(b, off, n, v, 2, 4); PutGet(b, off, n, v, 4, 8);
    PutGet(b, off, n, v, 8, 16); PutGet(b, off, n, v, 16, 24); PutGet(b, off, n, v, 24, 32);
    PutGet(b, off, n, v, 32, 40); PutGet(b, off, n, v, MSG_HDR_SIZE, |b|);
  }

  function AttribWritten(b: seq<byte>, aoff: nat, t: u16, octets: seq<byte>): (r: seq<byte>)
    requires aoff + 8 + |octets| <= |b|
    ensures |r| == |b|
  {
    var c := Put(Put(Put(b, aoff, 2, t), aoff + 2, 2, |octets|), aoff + 4, 4, 0);
    c[..aoff + 8] + octets + c[aoff + 8 + |octets|..]
  }

  class Mbuf {
    var b: seq<byte>    // `bsize` is its length
    var boff: nat

    ghost predicate Valid()
      reads this
    {
      MSG_HDR_SIZE <= |b| <= MSG_MAX_SIZE
    }

    /** The message held by a complete buffer. */
    ghost function View(): Msg
      reads this
      requires Valid()
    {
      Unmarshal(b)
    }

    /** `mbuf_new`: just big enough for the header, whose bytes are not initialised. */
    constructor ()
      ensures Valid() && |b| == MSG_HDR_SIZE && boff == 0
    {
      b := Zeros(MSG_HDR_SIZE);
      boff := 0;
    }

    /** `mbuf_resize`: false stands for the end of the process in `die_if`.  Bytes gained by growing
        are not initialised, so nothing is promised about them. */
    method Resize(paylen: nat) returns (alive: bool)
      requires Valid()
      modifies this
      ensures Valid()
      ensures alive <==> paylen <= MSG_MAX_PAY_SIZE
      ensures !alive ==> b == old(b) && boff == old(boff)
      ensures alive ==> |b| == MSG_HDR_SIZE + paylen && boff == if old(boff) > |b| then |b| else old(boff)
      ensures alive ==> b[..MSG_HDR_SIZE] == old(b)[..MSG_HDR_SIZE]
      ensures alive ==> if |b| <= |old(b)| then b == old(b)[..|b|] else b[..|old(b)|] == old(b)
    {
      var size := paylen + MSG_HDR_SIZE;
      if MSG_MAX_SIZE < size {
        return false;
      }
      b := if size <= |b| then b[..size] else b + Zeros(size - |b|);
      if boff > |b| {
        boff := |b|;
      }
      return true;
    }

    /** `mbuf_grow`: zeroed octets are appended. */
    method Grow(amount: nat) returns (alive: bool)
      requires Valid()
      modifies this
      ensures Valid()
      ensures alive <==> |old(b)| + amount <= MSG_MAX_SIZE
      ensures b == if alive then old(b) + Zeros(amount) else old(b)
      ensures alive && old(boff) <= |old(b)| ==> boff == old(boff)
    {
      alive := Resize(|b| - MSG_HDR_SIZE + amount);
      if alive {
        b := b[..|b| - amount] + Zeros(amount);
      }
    }

    method HdrSet(off: nat, n: nat, v: nat)
      requires Valid() && v < Pow256(n)
      requires (off, n) in {(0, 2), (2, 2), (4, 4), (8, 8), (16, 8), (24, 8), (32, 8)}
      modifies this`b
      ensures Valid() && b == Put(old(b), off, n, v)
    {
      b := Put(b, off, n, v);
    }

    /** `mbuf_compose` on this buffer: a fresh message without payload. */
    method Compose(mtype: u16, src: u64, dst: u64, trf: u64, now: u64)
      requires Valid()
      modifies this
      ensures Valid() && Sound(b) && boff == 0
      ensures View() == Msg(mtype, 0, now, src, dst, trf, [])
    {
      var alive := Resize(0);
      boff := 0;
      Powers();
      PutField(b, 0, 2, mtype); HdrSet(0, 2, mtype);
      PutField(b, 2, 2, 0); HdrSet(2, 2, 0);
      PutField(b, 4, 4, 0); HdrSet(4, 4, 0);
      PutField(b, 8, 8, now); HdrSet(8, 8, now);
      PutField(b, 16, 8, src); HdrSet(16, 8, src);
      PutField(b, 24, 8, dst); HdrSet(24, 8, dst);
      PutField(b, 32, 8, trf); HdrSet(32, 8, trf);
    }

    /** `mbuf_to_response` */
    method ToResponse(now: u64)
      requires Valid()
      modifies this
      ensures Valid() && Sound(b) && boff == 0
      ensures View() == Response(old(View()), now)
    {
      ghost var m := View();
      ghost var b0 := b;
      var alive := Resize(0);
      assert b == b0[..MSG_HDR_SIZE] == b[..MSG_HDR_SIZE];
      SameHeader(b, b0);
      assert View() == m.(pay := []);
      boff := 0;
      Powers();
      var t := ToRes(Get2(b, 0));
      PutField(b, 0, 2, t); HdrSet(0, 2, t);
      PutField(b, 2, 2, 0); HdrSet(2, 2, 0);
      PutField(b, 4, 4, 0); HdrSet(4, 4, 0);
      PutField(b, 8, 8, now); HdrSet(8, 8, now);
      var src := Get8(b, 16);
      var dst := Get8(b, 24);
      PutField(b, 16, 8, dst); HdrSet(16, 8, dst);
      PutField(b, 24, 8, src); HdrSet(24, 8, src);
    }

    /** The stores of `mbuf_addattrib` into the area it has grown. */
    method WriteAttrib(aoff: nat, t: u16, octets: seq<byte>)
      requires Valid() && aoff + 8 + |octets| <= |b|
      modifies this`b
      ensures |b| == |old(b)| && b == AttribWritten(old(b), aoff, t, octets)
    {
      b := Put(b, aoff, 2, t);
      b := Put(b, aoff + 2, 2, |octets|);
      b := Put(b, aoff + 4, 4, 0);
      b := b[..aoff + 8] + octets + b[aoff + 8 + |octets|..];
    }

    /** What `mbuf_addattrib` does once it knows the value's `len` octets. */
    method Append(t: u16, len: nat, octets: seq<byte>) returns (alive: bool)
      requires Valid() && len == |octets|
      modifies this
      ensures Valid()
      ensures alive <==> |old(b)| + 8 + Roundup8(len) <= MSG_MAX_SIZE
      ensures !alive ==> b == old(b)
      ensures alive ==> View() == AddAttr(old(View()), t, octets) && HdrGetPaylen(b) == |b| - MSG_HDR_SIZE
      ensures alive && old(boff) <= |old(b)| ==> boff == old(boff)
    {
      hide AttribWritten, Put, AddAttr, EncAttr, Unmarshal, Get2, Be, Zeros, Roundup8, HdrGetPaylen;
      RoundsUp(len);
      ghost var b0 := b;
      var aoff := |b|;
      alive := Grow(Roundup8(len) + 8);
      if !alive {
        return;
      }
      ghost var b1 := b;
      Fits16(|b| - MSG_HDR_SIZE);
      HdrSet(2, 2, |b| - MSG_HDR_SIZE);
      ghost var b2 := b;
      WriteAttrib(aoff, t, octets);
      AppendedAttr(b0, b1, b2, t, octets);
    }

    /** `mbuf_addattrib`: appends one padded attribute and keeps the length field right. */
    method AddAttrib(t: u16, length: nat, v: Value) returns (alive: bool)
      requires Valid() && Passable(t, length, v)
      modifies this
      ensures Valid()
      ensures alive <==> AvTypeOf(t).Some? && |old(b)| + 8 + Roundup8(|Octets(t, v)|) <= MSG_MAX_SIZE
      ensures !alive ==> b == old(b)
      ensures alive ==> View() == AddAttr(old(View()), t, Octets(t, v)) && HdrGetPaylen(b) == |b| - MSG_HDR_SIZE
      ensures alive && old(boff) <= |old(b)| ==> boff == old(boff)
    {
      var av := AvTypeOf(t);
      if av.None? {
        return false;
      }
      var len := match av.value case AvNone => 0 case AvU64 => 8 case AvStr => length case AvBlob => length;
      var octets := Octets(t, v);
      assert len == |octets|;
      hide *;
      alive := Append(t, len, octets);
    }

    /** `HDR_CLASS_TO_ERR` */
    method HdrClassToErr()
      requires Valid() && Sound(b)
      modifies this`b
      ensures Valid() && Sound(b) && View() == old(View()).(mtype := ToErr(old(View()).mtype))
    {
      Powers();
      var t := ToErr(Get2(b, 0));
      PutField(b, 0, 2, t);
      HdrSet(0, 2, t);
    }

    /** `mbuf_to_error_response` */
    method ToErrorResponse(ec: u64, text: seq<byte>, now: u64)
      requires Valid() && 0 !in text && |text| < 60000
      modifies this
      ensures Valid() && Sound(b) && boff == 0
      ensures View() == ErrorResponse(old(View()), ec, text, now)
    {
      ToResponse(now);
      HdrClassToErr();
      ErrOfRes(old(View()).mtype);
      assert |b| == MSG_HDR_SIZE + |View().pay|;
      var octets := Octets(ERROR, VU64(ec));
      assert |octets| == 8;
      var alive := AddAttrib(ERROR, 8, VU64(ec));
      assert |b| == MSG_HDR_SIZE + |View().pay| == MSG_HDR_SIZE + 16;
      assert |Octets(NOTICE, VStr(text))| == |text| + 1;
      alive := AddAttrib(NOTICE, |text| + 1, VStr(text));
    }

    /** `mbuf_resetgetattrib` */
    method ResetGetAttrib()
      modifies this`boff
      ensures boff == MSG_HDR_SIZE
    {
      boff := MSG_HDR_SIZE;
    }

    /** `mbuf_getnextattrib`: on success the value is the `plen` bytes at `pval`, inside the buffer. */
    method GetNextAttrib() returns (r: int, ptype: u16, plen: nat, pval: nat)
      modifies this`boff
      ensures r == 0 <==> NextAttrib(b, old(boff)).Some?
      ensures r != 0 ==> r == -1 && ptype == ATTR_INVALID && plen == 0 && boff == old(boff)
      ensures r == 0 ==> pval + plen <= |b| && boff <= |b| + 7
                         && NextAttrib(b, old(boff)) == Some((Attr(ptype, b[pval..pval + plen]), boff))
    {
      if |b| < boff + 8 {
        return -1, ATTR_INVALID, 0, 0;
      }
      plen := Get2(b, boff + 2);
      if |b| < boff + 8 + plen {
        return -1, ATTR_INVALID, 0, 0;
      }
      ptype := Get2(b, boff);
      pval := boff + 8;
      boff := boff + 8 + Roundup8(plen);
      r := 0;
    }
  }

  // ----- the stores of `mbuf_addattrib` -----

  lemma PutFirst(z: seq<byte>, n: nat, v: nat)
    requires n <= |z|
    ensures Put(z, 0, n, v) == Be(v, n) + z[n..]
  {
    hide Be;
    assert z[..0] + Be(v, n) == Be(v, n);
  }

  lemma PutTail(a: seq<byte>, z: seq<byte>, x: nat, n: nat, v: nat)
    requires x + n <= |z|
    ensures Put(a + z, |a| + x, n, v) == a + Put(z, x, n, v)
  {
    hide Be;
    assert (a + z)[..|a| + x] == a + z[..x];
    assert (a + z)[|a| + x + n..] == z[x + n..];
  }

  lemma PutHead(a: seq<byte>, z: seq<byte>, x: nat, n: nat, v: nat)
    requires x + n <= |a|
    ensures Put(a + z, x, n, v) == Put(a, x, n, v) + z
  {
    hide Be;
    assert (a + z)[..x] == a[..x];
    assert (a + z)[x + n..] == a[x + n..] + z;
  }

  /** The head of an attribute written over the first eight bytes. */
  lemma WrittenHead(z: seq<byte>, t: nat, len: nat)
    requires |z| >= 8
    ensures Put(Put(Put(z, 0, 2, t), 2, 2, len), 4, 4, 0) == Be(t, 2) + Be(len, 2) + Be(0, 4) + z[8..]
  {
    hide Be, Put;
    var h, l := Be(t, 2), Be(len, 2);
    PutFirst(z, 2, t);
    PutTail(h, z[2..], 0, 2, len);
    PutFirst(z[2..], 2, len);
    assert z[2..][2..] == z[4..];
    assert h + (l + z[4..]) == (h + l) + z[4..];
    PutTail(h + l, z[4..], 0, 4, 0);
    PutFirst(z[4..], 4, 0);
    assert z[4..][4..] == z[8..];
    assert (h + l) + (Be(0, 4) + z[8..]) == h + l + Be(0, 4) + z[8..];
  }

  /** The stores into a zeroed tail form the encoded attribute. */
  lemma WrittenAttr(a: seq<byte>, t: u16, octets: seq<byte>)
    ensures AttribWritten(a + Zeros(8 + Roundup8(|octets|)), |a|, t, octets) == a + EncAttr(Attr(t, octets))
  {
    hide Be, Zeros, Put, Roundup8;
    var n := Roundup8(|octets|);
    var z := Zeros(8 + n);
    PutTail(a, z, 0, 2, t);
    PutTail(a, Put(z, 0, 2, t), 2, 2, |octets|);
    PutTail(a, Put(Put(z, 0, 2, t), 2, 2, |octets|), 4, 4, 0);
    WrittenHead(z, t, |octets|);
    ZerosFrom(8 + n, 8);
    var head := Be(t, 2) + Be(|octets|, 2) + Be(0, 4);
    RoundsUp(|octets|);
    ZerosFrom(n, |octets|);
    Splice(a, head, Zeros(n), octets);
  }

  lemma Fits16(n: nat)
    requires n <= MSG_MAX_PAY_SIZE
    ensures n < Pow256(2)
  {
    Powers();
  }

  lemma RoundsUp(n: nat)
    ensures Roundup8(n) >= n
  {}

  /** The value written behind the head. */
  lemma Splice(a: seq<byte>, head: seq<byte>, z: seq<byte>, octets: seq<byte>)
    requires |octets| <= |z|
    ensures var c := a + (head + z);
            var k := |a| + |head|;
            c[..k] + octets + c[k + |octets|..] == a + (head + octets + z[|octets|..])
  {
    var c := a + (head + z);
    var k := |a| + |head|;
    assert c[..k] == a + head;
    assert c[k + |octets|..] == z[|octets|..];
  }

  /** The writes of `mbuf_addattrib` into the grown area append the encoded attribute to the payload. */
  lemma AppendedAttr(b0: seq<byte>, b1: seq<byte>, b2: seq<byte>, t: u16, octets: seq<byte>)
    requires MSG_HDR_SIZE <= |b0| && |octets| < 0x1_0000
    requires b1 == b0 + Zeros(Roundup8(|octets|) + 8) && |b1| <= MSG_MAX_SIZE
    requires b2 == Put(b1, 2, 2, |b1| - MSG_HDR_SIZE)
    ensures |b0| + 8 + |octets| <= |b2|
    ensures var b := AttribWritten(b2, |b0|, t, octets);
            && HdrGetPaylen(b) == |b1| - MSG_HDR_SIZE
            && Unmarshal(b) == AddAttr(Unmarshal(b0), t, octets)
  {
    RoundsUp(|octets|);
    Powers();
    var len := |b1| - MSG_HDR_SIZE;
    PutField(b0, 2, 2, len);
    hide AttribWritten, EncAttr, Be, Zeros, Roundup8, Put, Unmarshal, HdrGetPaylen;
    var a := Put(b0, 2, 2, len);
    PutHead(b0, Zeros(Roundup8(|octets|) + 8), 2, 2, len);
    WrittenAttr(a, t, octets);
    SamePut(b0, len);
    AppendedPay(a, EncAttr(Attr(t, octets)));
  }

  /** The length field is no part of the message as a value. */
  lemma SamePut(b: seq<byte>, len: u16)
    requires |b| >= MSG_HDR_SIZE
    ensures Unmarshal(Put(b, 2, 2, len)) == Unmarshal(b) && HdrGetPaylen(Put(b, 2, 2, len)) == len
  {
    Powers();
    PutField(b, 2, 2, len);
    hide Put, Get2, Get4, Get8;
  }

  lemma AppendedPay(a: seq<byte>, e: seq<byte>)
    requires |a| >= MSG_HDR_SIZE
    ensures Unmarshal(a + e) == Unmarshal(a).(pay := Unmarshal(a).pay + e) && HdrGetPaylen(a + e) == HdrGetPaylen(a)
  {
    SameHeader(a + e, a);
    assert (a + e)[MSG_HDR_SIZE..] == a[MSG_HDR_SIZE..] + e;
    hide Get2, Get4, Get8;
  }

  lemma SameHeader(b: seq<byte>, c: seq<byte>)
    requires MSG_HDR_SIZE <= |b| && MSG_HDR_SIZE <= |c|
    requires b[..MSG_HDR_SIZE] == c[..MSG_HDR_SIZE]
    ensures HdrGetPaylen(b) == HdrGetPaylen(c)
    ensures Unmarshal(b) == Unmarshal(c).(pay := b[MSG_HDR_SIZE..])
  {
    SameSlice(b, c, 0, 2); SameSlice(b, c, 2, 4); SameSlice(b, c, 4, 8); SameSlice(b, c, 8, 16);
    SameSlice(b, c, 16, 24); SameSlice(b, c, 24, 32); SameSlice(b, c, 32, 40);
    hide FromBe;
  }

  lemma SameSlice(b: seq<byte>, c: seq<byte>, lo: nat, hi: nat)
    requires lo <= hi <= MSG_HDR_SIZE <= |b| && MSG_HDR_SIZE <= |c|
    requires b[..MSG_HDR_SIZE] == c[..MSG_HDR_SIZE]
    ensures b[lo..hi] == c[lo..hi]
  {
    forall k | lo <= k < hi
      ensures b[k] == c[k]
    {
      assert b[..MSG_HDR_SIZE][k] == c[..MSG_HDR_SIZE][k];
    }
  }
}
