/** Bytes, fixed-width words and network byte order (lib/bendian.h).

    The header swaps words with shift-and-mask terms.  Here `Shr`, `Shl` and `AndByte` are those
    operations on numbers, and the result that matters to the wire format is proved: what a
    little-endian host stores for `HTON(v)` is the big-endian encoding of `v`. */
module Bytes {
  type byte = x: int | 0 <= x < 0x100
  type u16 = x: int | 0 <= x < 0x1_0000
  type u32 = x: int | 0 <= x < 0x1_0000_0000
  type u64 = x: int | 0 <= x < 0x1_0000_0000_0000_0000

  datatype Option<+T> = None | Some(value: T)

  /** Bytes of a string literal; the program's own texts are ASCII. */
  function Ascii(s: string): (r: seq<byte>)
    requires forall c <- s :: c < 128 as char
    ensures |r| == |s|
  {
    seq(|s|, i requires 0 <= i < |s| => if s[i] < 128 as char then s[i] as byte else 0)
  }

  function Zeros(n: nat): (r: seq<byte>)
    ensures |r| == n
  {
    seq(n, _ => 0)
  }

  lemma ZerosFrom(n: nat, k: nat)
    requires k <= n
    ensures Zeros(n)[k..] == Zeros(n - k)
  {}

  function Pow256(n: nat): (r: nat)
    ensures r > 0
  {
    if n == 0 then 1 else 256 * Pow256(n - 1)
  }

  /** The `n` low bytes of `v`, most significant first: network order. */
  function Be(v: nat, n: nat): (r: seq<byte>)
    ensures |r| == n
  {
    if n == 0 then [] else Be(v / 256, n - 1) + [v % 256]
  }

  function FromBe(s: seq<byte>): (r: nat)
    ensures r < Pow256(|s|)
  {
    if s == [] then 0 else 256 * FromBe(s[..|s| - 1]) + s[|s| - 1]
  }

  /** The `n` low bytes of `v`, least significant first: how a little-endian host stores a word. */
  function Le(v: nat, n: nat): (r: seq<byte>)
    ensures |r| == n
  {
    if n == 0 then [] else [v % 256] + Le(v / 256, n - 1)
  }

  /** The word a little-endian host loads from `s`. */
  function FromLe(s: seq<byte>): nat {
    if s == [] then 0 else 256 * FromLe(s[1..]) + s[0]
  }

  lemma {:induction false} FromBeBe(v: nat, n: nat)
    requires v < Pow256(n)
    ensures FromBe(Be(v, n)) == v
  {
    if n > 0 {
      FromBeBe(v / 256, n - 1);
      assert Be(v, n)[..n - 1] == Be(v / 256, n - 1);
    }
  }

  lemma {:induction false} BeFromBe(s: seq<byte>)
    ensures Be(FromBe(s), |s|) == s
  {
    if s != [] {
      var front, b := s[..|s| - 1], s[|s| - 1];
      BeFromBe(front);
      BeStep(b, FromBe(front), |front|);
      hide Be;
      assert s == front + [b];
    }
  }

  lemma BeStep(b: byte, x: nat, n: nat)
    ensures Be(256 * x + b, n + 1) == Be(x, n) + [b]
  {
    assert (256 * x + b) % 256 == b && (256 * x + b) / 256 == x;
  }

  lemma Powers()
    ensures Pow256(0) == 1 && Pow256(1) == 0x100 && Pow256(2) == 0x1_0000 && Pow256(3) == 0x100_0000
    ensures Pow256(4) == 0x1_0000_0000 && Pow256(5) == 0x100_0000_0000 && Pow256(6) == 0x1_0000_0000_0000
    ensures Pow256(7) == 0x100_0000_0000_0000 && Pow256(8) == 0x1_0000_0000_0000_0000
  {
    assert Pow256(2) == 0x1_0000;
    assert Pow256(4) == 0x1_0000_0000;
    assert Pow256(6) == 0x1_0000_0000_0000;
  }

  /** Byte `k` of `v`, counted from the least significant one. */
  function Digit(v: nat, k: nat): byte {
    if k == 0 then v % 256 else Digit(v / 256, k - 1)
  }

  // ----- the swap macros -----

  /** `V >> 8*k` */
  function Shr(v: nat, k: nat): nat {
    if k == 0 then v else Shr(v / 256, k - 1)
  }

  /** `V << 8*k` in a word of `n` bytes: the bytes pushed beyond the word are lost. */
  function Shl(v: nat, k: nat, n: nat): nat {
    if n == 0 then 0 else if k == 0 then v % 256 + 256 * Shl(v / 256, 0, n - 1) else 256 * Shl(v, k - 1, n - 1)
  }

  /** `x & (0xFF << 8*k)` */
  function AndByte(x: nat, k: nat): nat {
    if k == 0 then x % 256 else 256 * AndByte(x / 256, k - 1)
  }

  /** `x | y` */
  function Or(x: nat, y: nat): nat
    decreases x + y
  {
    if x == 0 then y else (if x % 2 == 1 || y % 2 == 1 then 1 else 0) + 2 * Or(x / 2, y / 2)
  }

  function Pow2(n: nat): nat { if n == 0 then 1 else 2 * Pow2(n - 1) }

  /** The bitwise or of terms that do not overlap is their sum. */
  lemma {:induction false} OrSum(x: nat, z: nat, n: nat)
    requires x < Pow2(n)
    ensures Or(x, Pow2(n) * z) == x + Pow2(n) * z
    decreases n
  {
    if x > 0 {
      var y := Pow2(n) * z;
      assert y == 2 * (Pow2(n - 1) * z);
      OrSum(x / 2, z, n - 1);
    }
  }

  lemma {:induction false} Pow256Bits(k: nat)
    ensures Pow256(k) == Pow2(8 * k)
  {
    if k > 0 {
      Pow256Bits(k - 1);
      var n := 8 * (k - 1);
      assert Pow2(n + 8) == 256 * Pow2(n) by {
        assert Pow2(n + 2) == 4 * Pow2(n) && Pow2(n + 4) == 4 * Pow2(n + 2);
        assert Pow2(n + 6) == 4 * Pow2(n + 4) && Pow2(n + 8) == 4 * Pow2(n + 6);
      }
    }
  }

  /** One more masked byte. */
  lemma OrByte(x: nat, y: nat, k: nat)
    requires x < Pow256(k)
    ensures Or(x, AndByte(y, k)) == x + AndByte(y, k) < Pow256(k + 1)
  {
    AndByteValue(y, k);
    Pow256Bits(k);
    OrSum(x, Digit(y, k), 8 * k);
    DigitBelow(Pow256(k), Digit(y, k));
    hide Or, AndByte, Digit, Pow2;
  }

  lemma DigitBelow(p: nat, d: byte)
    ensures p * d <= 255 * p
  {}

  function Swap2(v: u16): nat { Or(AndByte(Shr(v, 1), 0), AndByte(Shl(v, 1, 2), 1)) }

  function Swap4(v: u32): nat {
    Or(Or(Or(AndByte(Shr(v, 3), 0), AndByte(Shr(v, 1), 1)), AndByte(Shl(v, 1, 4), 2)), AndByte(Shl(v, 3, 4), 3))
  }

  function Swap8(v: u64): nat {
    Or(Or(Or(Or(Or(Or(Or(AndByte(Shr(v, 7), 0), AndByte(Shr(v, 5), 1)), AndByte(Shr(v, 3), 2)), AndByte(Shr(v, 1), 3)),
             AndByte(Shl(v, 1, 8), 4)), AndByte(Shl(v, 3, 8), 5)), AndByte(Shl(v, 5, 8), 6)), AndByte(Shl(v, 7, 8), 7))
  }

  lemma Swap2Sum(v: u16)
    ensures Swap2(v) == AndByte(Shr(v, 1), 0) + AndByte(Shl(v, 1, 2), 1)
  {
    OrByte(0, Shr(v, 1), 0);
    OrByte(AndByte(Shr(v, 1), 0), Shl(v, 1, 2), 1);
  }

  lemma Swap4Sum(v: u32)
    ensures Swap4(v) == AndByte(Shr(v, 3), 0) + AndByte(Shr(v, 1), 1)
                        + AndByte(Shl(v, 1, 4), 2) + AndByte(Shl(v, 3, 4), 3)
  {
    hide Or, AndByte, Shr, Shl, Pow256;
    var a, b, c, d := Shr(v, 3), Shr(v, 1), Shl(v, 1, 4), Shl(v, 3, 4);
    assert AndByte(a, 0) < Pow256(1) by { OrByte(0, a, 0); Powers(); }
    OrByte(AndByte(a, 0), b, 1);
    OrByte(AndByte(a, 0) + AndByte(b, 1), c, 2);
    OrByte(AndByte(a, 0) + AndByte(b, 1) + AndByte(c, 2), d, 3);
  }

  lemma Swap8Sum(v: u64)
    ensures Swap8(v) == AndByte(Shr(v, 7), 0) + AndByte(Shr(v, 5), 1) + AndByte(Shr(v, 3), 2) + AndByte(Shr(v, 1), 3)
                        + AndByte(Shl(v, 1, 8), 4) + AndByte(Shl(v, 3, 8), 5)
                        + AndByte(Shl(v, 5, 8), 6) + AndByte(Shl(v, 7, 8), 7)
  {
    hide Or, AndByte, Shr, Shl, Pow256;
    var a, b, c, d := Shr(v, 7), Shr(v, 5), Shr(v, 3), Shr(v, 1);
    var e, f, g, h := Shl(v, 1, 8), Shl(v, 3, 8), Shl(v, 5, 8), Shl(v, 7, 8);
    assert AndByte(a, 0) < Pow256(1) by { OrByte(0, a, 0); Powers(); }
    var x1: nat := AndByte(a, 0); OrByte(x1, b, 1);
    var x2: nat := x1 + AndByte(b, 1); OrByte(x2, c, 2);
    var x3: nat := x2 + AndByte(c, 2); OrByte(x3, d, 3);
    var x4: nat := x3 + AndByte(d, 3); OrByte(x4, e, 4);
    var x5: nat := x4 + AndByte(e, 4); OrByte(x5, f, 5);
    var x6: nat := x5 + AndByte(f, 5); OrByte(x6, g, 6);
    OrByte(x6 + AndByte(g, 6), h, 7);
  }

  lemma {:induction false} DigitOfShr(v: nat, k: nat, j: nat)
    ensures Digit(Shr(v, k), j) == Digit(v, k + j)
  {
    if k > 0 { DigitOfShr(v / 256, k - 1, j); }
  }

  lemma {:induction false} DigitOfShl(v: nat, k: nat, n: nat, j: nat)
    requires k <= j < n
    ensures Digit(Shl(v, k, n), j) == Digit(v, j - k)
  {
    if k > 0 {
      DigitOfShl(v, k - 1, n - 1, j - 1);
      assert Shl(v, k, n) / 256 == Shl(v, k - 1, n - 1);
    } else if j > 0 {
      DigitOfShl(v / 256, 0, n - 1, j - 1);
      assert Shl(v, k, n) / 256 == Shl(v / 256, 0, n - 1);
    }
  }

  lemma {:induction false} AndByteValue(x: nat, k: nat)
    ensures AndByte(x, k) == Pow256(k) * Digit(x, k)
  {
    if k > 0 { AndByteValue(x / 256, k - 1); }
  }

  /** Storing a number written with the digits `a`. */
  lemma LeStep(a: byte, x: nat, n: nat)
    ensures Le(a + 256 * x, n + 1) == [a] + Le(x, n)
  {
    assert (a + 256 * x) % 256 == a && (a + 256 * x) / 256 == x;
  }

  lemma {:induction false} BeSplit(v: nat, n: nat)
    ensures Be(v, n + 1) == [Digit(v, n)] + Be(v, n)
  {
    if n > 0 { BeSplit(v / 256, n - 1); }
  }

  lemma SwapStores2(v: u16)
    ensures Le(Swap2(v), 2) == Be(v, 2)
  {
    Powers();
    Swap2Sum(v);
    hide Or;
    DigitOfShr(v, 1, 0); DigitOfShl(v, 1, 2, 1);
    AndByteValue(Shl(v, 1, 2), 1);
    var a, b := Digit(v, 1), Digit(v, 0);
    LeStep(a, b, 1); LeStep(b, 0, 0);
    BeSplit(v, 1); BeSplit(v, 0);
  }

  lemma SwapStores4(v: u32)
    ensures Le(Swap4(v), 4) == Be(v, 4)
  {
    Powers();
    Swap4Sum(v);
    hide Or, Swap4;
    DigitOfShr(v, 3, 0); DigitOfShr(v, 1, 1); DigitOfShl(v, 1, 4, 2); DigitOfShl(v, 3, 4, 3);
    AndByteValue(Shr(v, 1), 1); AndByteValue(Shl(v, 1, 4), 2); AndByteValue(Shl(v, 3, 4), 3);
    var a: nat, b: nat, c: nat, d: nat := Digit(v, 3), Digit(v, 2), Digit(v, 1), Digit(v, 0);
    var w2 := c + 256 * d;
    var w1 := b + 256 * w2;
    assert Swap4(v) == a + 256 * w1;
    hide *;
    LeStep(a, w1, 3); LeStep(b, w2, 2); LeStep(c, d, 1); LeStep(d, 0, 0);
    BeSplit(v, 3); BeSplit(v, 2); BeSplit(v, 1); BeSplit(v, 0);
  }

  lemma Swap8Value(v: u64)
    ensures Swap8(v) == Digit(v, 7) + Pow256(1) * Digit(v, 6) + Pow256(2) * Digit(v, 5) + Pow256(3) * Digit(v, 4)
                        + Pow256(4) * Digit(v, 3) + Pow256(5) * Digit(v, 2)
                        + Pow256(6) * Digit(v, 1) + Pow256(7) * Digit(v, 0)
  {
    Swap8Sum(v);
    hide Or, Swap8;
    DigitOfShr(v, 7, 0); DigitOfShr(v, 5, 1); DigitOfShr(v, 3, 2); DigitOfShr(v, 1, 3);
    DigitOfShl(v, 1, 8, 4); DigitOfShl(v, 3, 8, 5); DigitOfShl(v, 5, 8, 6); DigitOfShl(v, 7, 8, 7);
    AndByteValue(Shr(v, 5), 1); AndByteValue(Shr(v, 3), 2); AndByteValue(Shr(v, 1), 3);
    AndByteValue(Shl(v, 1, 8), 4); AndByteValue(Shl(v, 3, 8), 5);
    AndByteValue(Shl(v, 5, 8), 6); AndByteValue(Shl(v, 7, 8), 7);
  }

  lemma LeOfDigits8(a: byte, b: byte, c: byte, d: byte, e: byte, f: byte, g: byte, h: byte)
    ensures Le(a + 0x100 * b + 0x1_0000 * c + 0x100_0000 * d + 0x1_0000_0000 * e + 0x100_0000_0000 * f
               + 0x1_0000_0000_0000 * g + 0x100_0000_0000_0000 * h, 8) == [a, b, c, d, e, f, g, h]
  {
    hide Le;
    var w6: nat := 256 * h + g;
    var w5: nat := 256 * w6 + f;
    var w4: nat := 256 * w5 + e;
    var w3: nat := 256 * w4 + d;
    var w2: nat := 256 * w3 + c;
    var w1: nat := 256 * w2 + b;
    LeStep(h, 0, 0); LeStep(g, h, 1); LeStep(f, w6, 2); LeStep(e, w5, 3);
    LeStep(d, w4, 4); LeStep(c, w3, 5); LeStep(b, w2, 6); LeStep(a, w1, 7);
    assert Le(0, 0) == [];
  }

  lemma BeOfDigits8(v: nat)
    ensures Be(v, 8) == [Digit(v, 7), Digit(v, 6), Digit(v, 5), Digit(v, 4),
                         Digit(v, 3), Digit(v, 2), Digit(v, 1), Digit(v, 0)]
  {
    BeSplit(v, 7); BeSplit(v, 6); BeSplit(v, 5); BeSplit(v, 4);
    BeSplit(v, 3); BeSplit(v, 2); BeSplit(v, 1); BeSplit(v, 0);
  }

  lemma SwapStores8(v: u64)
    ensures Le(Swap8(v), 8) == Be(v, 8)
  {
    Powers();
    Swap8Value(v);
    LeOfDigits8(Digit(v, 7), Digit(v, 6), Digit(v, 5), Digit(v, 4), Digit(v, 3), Digit(v, 2), Digit(v, 1), Digit(v, 0));
    BeOfDigits8(v);
  }

  lemma {:induction false} FromLeLe(v: nat, n: nat)
    requires v < Pow256(n)
    ensures FromLe(Le(v, n)) == v
  {
    if n > 0 {
      FromLeLe(v / 256, n - 1);
      assert Le(v, n)[1..] == Le(v / 256, n - 1);
    }
  }

  lemma {:induction false} LeFromLe(s: seq<byte>)
    ensures FromLe(s) < Pow256(|s|)
    ensures Le(FromLe(s), |s|) == s
  {
    if s != [] {
      LeFromLe(s[1..]);
      LeStep(s[0], FromLe(s[1..]), |s| - 1);
      assert s == [s[0]] + s[1..];
    }
  }

  ghost predicate Reversed(s: seq<byte>, t: seq<byte>) {
    |t| == |s| && forall k | 0 <= k < |s| :: t[k] == s[|s| - 1 - k]
  }

  lemma {:induction false} FromBeReversed(s: seq<byte>, t: seq<byte>)
    requires Reversed(s, t)
    ensures FromBe(s) == FromLe(t)
  {
    if s != [] {
      FromBeReversed(s[..|s| - 1], t[1..]);
    }
  }

  lemma {:induction false} LeReversesBe(v: nat, n: nat)
    ensures Reversed(Be(v, n), Le(v, n)) && Reversed(Le(v, n), Be(v, n))
  {
    if n > 0 { LeReversesBe(v / 256, n - 1); }
  }

  /** If storing `w` gives the bytes of `v` in network order, then `w` is the number those bytes of
      memory mean in network order: `NTOH` inverts `HTON`. */
  lemma LoadSwapped(s: seq<byte>, w: nat)
    requires w < Pow256(|s|) && Le(w, |s|) == Be(FromLe(s), |s|)
    ensures w == FromBe(s)
  {
    var v := FromLe(s);
    LeFromLe(s);
    LeReversesBe(v, |s|);
    FromBeReversed(s, Be(v, |s|));
    FromLeLe(w, |s|);
  }

  lemma SwapLoads2(s: seq<byte>)
    requires |s| == 2
    ensures FromLe(s) < 0x1_0000 && Swap2(FromLe(s)) == FromBe(s)
  {
    Powers(); LeFromLe(s);
    var v: u16 := FromLe(s);
    SwapStores2(v);
    Swap2Sum(v);
    hide Or;
    DigitOfShr(v, 1, 0); DigitOfShl(v, 1, 2, 1); AndByteValue(Shl(v, 1, 2), 1);
    LoadSwapped(s, Swap2(v));
  }

  lemma SwapLoads8(s: seq<byte>)
    requires |s| == 8
    ensures FromLe(s) < 0x1_0000_0000_0000_0000 && Swap8(FromLe(s)) == FromBe(s)
  {
    Powers(); LeFromLe(s);
    var v: u64 := FromLe(s);
    SwapStores8(v);
    Swap8Value(v);
    LoadSwapped(s, Swap8(v));
  }
}
