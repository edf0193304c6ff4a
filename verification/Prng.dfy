/** The pseudo random number generator and its unbiased range reduction (lib/prng.c). */
module Prng {
  import opened Bytes

  const RANDOM_MAX: u64 := 0xFFFF_FFFF_FFFF_FFFF
  const FLEASEED: u64 := 0xf1ea5eed
  const WORD := 0x1_0000_0000_0000_0000

  /** The four words of the generator's state. */
  datatype State = State(a: u64, b: u64, c: u64, d: u64)

  // ----- operations on words -----

  function Add(x: u64, y: u64): u64 { (x + y) % WORD }
  function Sub(x: u64, y: u64): u64 { (x - y) % WORD }

  /** Exclusive or of the `n` low bits. */
  function XorBits(x: nat, y: nat, n: nat): (r: nat)
    ensures r < Pow2(n)
  {
    if n == 0 then 0 else (x % 2 + y % 2) % 2 + 2 * XorBits(x / 2, y / 2, n - 1)
  }

  lemma TwiceProduct(a: nat, b: nat)
    ensures 2 * (a * b) == 2 * a * b
  {}

  lemma {:induction false} Pow2Sum(n: nat, m: nat)
    ensures Pow2(n + m) == Pow2(n) * Pow2(m)
  {
    if n > 0 {
      Pow2Sum(n - 1, m);
      TwiceProduct(Pow2(n - 1), Pow2(m));
      assert n - 1 + m == n + m - 1;
    }
  }

  lemma Pow2Word()
    ensures Pow2(64) == WORD
  {
    assert Pow2(4) == 16 by { assert Pow2(2) == 4; }
    Pow2Sum(4, 4); Pow2Sum(8, 8); Pow2Sum(16, 16); Pow2Sum(32, 32);
  }

  function Xor(x: u64, y: u64): u64 { Pow2Word(); XorBits(x, y, 64) }

  lemma XorStep(x: nat, y: nat, n: nat)
    requires n > 0
    ensures XorBits(x, y, n) == (x % 2 + y % 2) % 2 + 2 * XorBits(x / 2, y / 2, n - 1)
  {}

  lemma BitTwice(x: nat, y: nat)
    requires x < 2 && y < 2
    ensures ((x + y) % 2 + y) % 2 == x
  {}

  lemma {:induction false} XorBitsTwice(x: nat, y: nat, n: nat)
    requires x < Pow2(n)
    ensures XorBits(XorBits(x, y, n), y, n) == x
  {
    if n > 0 {
      XorBitsTwice(x / 2, y / 2, n - 1);
      var h := XorBits(x / 2, y / 2, n - 1);
      HalfAndBit((x % 2 + y % 2) % 2, h);
      BitTwice(x % 2, y % 2);
      XorStep(XorBits(x, y, n), y, n);
      XorStep(x, y, n);
      hide XorBits, Pow2;
    }
  }

  lemma HalfAndBit(bit: nat, h: nat)
    requires bit < 2
    ensures (bit + 2 * h) / 2 == h && (bit + 2 * h) % 2 == bit
  {}

  /** LEFTROT by `k` bits, with `p` for two to the power of `k` and `q` for the rest of the word: the low
      part moves up and the high part comes in below it. */
  function Rot(x: u64, p: nat, q: nat): u64
    requires p > 0 && q > 0 && p * q == WORD
  {
    RotFits(x, p, q);
    x % q * p + x / q
  }

  lemma Monotone(q: nat, p: nat, r: nat)
    requires p <= r
    ensures q * p <= q * r
  {}

  lemma RotFits(x: u64, p: nat, q: nat)
    requires p > 0 && q > 0 && p * q == WORD
    ensures 0 <= x % q * p + x / q < WORD
  {
    var hi, lo := x / q, x % q;
    assert x == q * hi + lo;
    if hi >= p {
      Monotone(q, p, hi);
      assert false;
    }
    assert lo * p <= (q - 1) * p;
  }

  /** It is the two shifts of the macro put together: what the left shift loses beyond the word is what the
      right shift brings in. */
  lemma RotIsShifts(x: u64, k: nat, q: nat)
    requires q > 0 && Pow2(k) * q == WORD
    ensures Pow2(k) > 0 && Rot(x, Pow2(k), q) == Or(x / q, x * Pow2(k) % WORD)
  {
    var p := Pow2(k);
    var hi, lo := x / q, x % q;
    assert x == q * hi + lo;
    if hi >= p {
      Monotone(q, p, hi);
      assert false;
    }
    OrSum(hi, lo, k);
    ShiftLoses(x, p, q, hi, lo);
  }

  lemma ShiftLoses(x: nat, p: nat, q: nat, hi: nat, lo: nat)
    requires p > 0 && p * q == WORD && x == q * hi + lo && lo < q
    ensures x * p % WORD == p * lo
  {
    assert x * p == WORD * hi + p * lo by {
      assert (q * hi) * p == (p * q) * hi;
    }
    assert p * lo < p * q by { Monotone(p, lo + 1, q); }
    DivMod(WORD, hi, p * lo);
  }

  /** Rotating on by the rest of the word undoes it. */
  lemma RotBack(x: u64, p: nat, q: nat)
    requires p > 0 && q > 0 && p * q == WORD && q * p == WORD
    ensures Rot(Rot(x, p, q), q, p) == x
  {
    var hi, lo := x / q, x % q;
    assert x == q * hi + lo;
    RotFits(x, p, q);
    if hi >= p {
      Monotone(q, p, hi);
      assert false;
    }
    var y := lo * p + hi;
    assert y == p * lo + hi;
    DivMod(p, lo, hi);
    DivOf(p, lo, hi);
    assert y % p == hi && y / p == lo;
    assert hi * q + lo == x;
  }

  lemma DivOf(p: nat, q: nat, r: nat)
    requires r < p
    ensures (p * q + r) / p == q
  {
    var x := p * q + r;
    DivMod(p, q, r);
    assert x == p * (x / p) + x % p;
    var d := x / p - q;
    assert p * d == p * (x / p) - p * q;
    SmallMultiple(p, d);
  }

  function Rot7(x: u64): u64 { Rot(x, 0x80, 0x200_0000_0000_0000) }
  function Rot13(x: u64): u64 { Rot(x, 0x2000, 0x8_0000_0000_0000) }
  function Rot37(x: u64): u64 { Rot(x, 0x20_0000_0000, 0x800_0000) }

  // ----- the generator -----

  function Next(s: State): State {
    var e := Sub(s.a, Rot7(s.b));
    var a := Xor(s.b, Rot13(s.c));
    State(a, Add(s.c, Rot37(s.d)), Add(s.d, e), Add(e, a))
  }

  function Previous(s: State): State {
    var e := Sub(s.d, s.a);
    var d := Sub(s.c, e);
    var c := Sub(s.b, Rot37(d));
    var b := Xor(s.a, Rot13(c));
    State(Add(e, Rot7(b)), b, c, d)
  }

  /** LEFTROT as the macro has it: the bits pushed beyond the word come in below. */
  function LeftRot(x: u64, k: nat): nat
    requires k <= 64
  {
    Pow2Positive(64 - k);
    Or(High(x, Pow2(64 - k)), Low(x, Pow2(k)))
  }

  function High(x: nat, q: nat): nat
    requires q > 0
  {
    x / q
  }

  function Low(x: nat, p: nat): nat { x * p % 0x1_0000_0000_0000_0000 }

  lemma {:induction false} Pow2Positive(n: nat)
    ensures Pow2(n) > 0
  {
    if n > 0 { Pow2Positive(n - 1); }
  }

  lemma LeftRotIs(x: u64)
    ensures LeftRot(x, 7) == Rot7(x) && LeftRot(x, 13) == Rot13(x) && LeftRot(x, 37) == Rot37(x)
  {
    hide Rot, Or;
    assert Pow2(7) == 0x80 && Pow2(13) == 0x2000 by { Small(); }
    assert Pow2(57) == 0x200_0000_0000_0000 && Pow2(51) == 0x8_0000_0000_0000 by { Small(); Large(); }
    assert Pow2(37) == 0x20_0000_0000 && Pow2(27) == 0x800_0000 by { Small(); Large(); }
    RotIsShifts(x, 7, 0x200_0000_0000_0000);
    RotIsShifts(x, 13, 0x8_0000_0000_0000);
    RotIsShifts(x, 37, 0x800_0000);
  }

  lemma Small()
    ensures Pow2(3) == 8 && Pow2(5) == 0x20 && Pow2(7) == 0x80 && Pow2(13) == 0x2000
  {
    assert Pow2(3) == 8 && Pow2(2) == 4;
    Pow2Sum(3, 2);
    Pow2Sum(5, 2);
    Pow2Sum(7, 3);
    Pow2Sum(10, 3);
  }

  lemma Large()
    ensures Pow2(27) == 0x800_0000 && Pow2(37) == 0x20_0000_0000
    ensures Pow2(51) == 0x8_0000_0000_0000 && Pow2(57) == 0x200_0000_0000_0000
  {
    Small();
    Pow2Sum(5, 5);
    Pow2Sum(10, 10);
    Pow2Sum(20, 7);
    Pow2Sum(27, 10);
    Pow2Sum(37, 7);
    Pow2Sum(44, 7);
    Pow2Sum(37, 20);
  }

  /** One step, in shifts: what is taken from the first word, what is mixed, what is added. */
  lemma StepInShifts(s: State) returns (x: u64, y: u64, z: u64)
    ensures x == LeftRot(s.b, 7) && y == LeftRot(s.c, 13) && z == LeftRot(s.d, 37)
    ensures var n := Next(s);
            var e := (s.a - x) % 0x1_0000_0000_0000_0000;
            && n.a == Xor(s.b, y)
            && n.b == (s.c + z) % 0x1_0000_0000_0000_0000
            && n.c == (s.d + e) % 0x1_0000_0000_0000_0000
            && n.d == (e + n.a) % 0x1_0000_0000_0000_0000
  {
    hide LeftRot, Rot7, Rot13, Rot37, Xor;
    LeftRotIs(s.b);
    LeftRotIs(s.c);
    LeftRotIs(s.d);
    x, y, z := Rot7(s.b), Rot13(s.c), Rot37(s.d);
  }

  lemma XorTwice(x: u64, y: u64)
    ensures Xor(Xor(x, y), y) == x
  {
    Pow2Word();
    XorBitsTwice(x, y, 64);
    assert Xor(x, y) == XorBits(x, y, 64);
  }

  lemma Cancel(x: u64, y: u64)
    ensures Sub(Add(x, y), y) == x && Add(Sub(x, y), y) == x && Xor(Xor(x, y), y) == x
  {
    XorTwice(x, y);
    hide Xor;
  }

  lemma PreviousNext(s: State)
    ensures Previous(Next(s)) == s
  {
    hide Rot7, Rot13, Rot37, Add, Sub, Xor;
    var n := Next(s);
    var e := Sub(s.a, Rot7(s.b));
    Cancel(e, n.a);
    Cancel(s.d, e);
    Cancel(s.c, Rot37(s.d));
    Cancel(s.b, Rot13(s.c));
    Cancel(s.a, Rot7(s.b));
  }

  lemma NextPrevious(t: State)
    ensures Next(Previous(t)) == t
  {
    hide Rot7, Rot13, Rot37, Add, Sub, Xor;
    var s := Previous(t);
    var e := Sub(t.d, t.a);
    Cancel(e, Rot7(s.b));
    Cancel(t.a, Rot13(s.c));
    Cancel(t.b, Rot37(s.d));
    Cancel(t.c, e);
    Cancel(t.d, t.a);
  }

  /** A step is a bijection on the states: every state has exactly one predecessor. */
  lemma StepBijective(s: State, t: State)
    ensures Next(s) == t <==> s == Previous(t)
  {
    PreviousNext(s);
    NextPrevious(t);
    hide Next, Previous;
  }

  function After(s: State, n: nat): State {
    if n == 0 then s else Next(After(s, n - 1))
  }

  /** The number returned by the `n`-th call. */
  function Draw(s: State, n: nat): u64
    requires n > 0
  {
    After(s, n).d
  }

  function Seeded(seed: u64): State { After(State(FLEASEED, seed, seed, seed), 20) }

  /** The biggest multiple of `upper` that numbers are accepted below. */
  function Limit(upper: u64): u64
    requires upper > 1
  {
    RANDOM_MAX - RANDOM_MAX % upper
  }

  /** The `n`-th call is the first to be accepted. */
  ghost predicate FirstAccepted(s: State, upper: u64, n: nat)
    requires upper > 1
  {
    n > 0 && Draw(s, n) < Limit(upper) && forall i | 0 < i < n :: Draw(s, i) >= Limit(upper)
  }

  class Generator {
    var a: u64
    var b: u64
    var c: u64
    var d: u64

    function View(): State
      reads this
    {
      State(a, b, c, d)
    }

    constructor ()
      ensures View() == State(FLEASEED, 0, 0, 0)
    {
      a, b, c, d := FLEASEED, 0, 0, 0;
    }

    method Random() returns (r: u64)
      modifies this
      ensures View() == Next(old(View())) && r == View().d
    {
      hide Rot7, Rot13, Rot37, Add, Sub, Xor;
      var e := Sub(a, Rot7(b));
      a := Xor(b, Rot13(c));
      b := Add(c, Rot37(d));
      c := Add(d, e);
      d := Add(e, a);
      return d;
    }

    method Srandom(seed: u64)
      modifies this
      ensures View() == Seeded(seed)
    {
      a := FLEASEED;
      b, c, d := seed, seed, seed;
      ghost var s := View();
      for i := 0 to 20
        invariant View() == After(s, i)
      {
        var r := Random();
      }
    }

    /** The loop ends exactly if a number is ever accepted, say the `n`-th. */
    method RandomUni(upper: u64, ghost n: nat) returns (r: u64)
      requires upper > 1 ==> FirstAccepted(View(), upper, n)
      modifies this
      ensures upper <= 1 ==> r == 0 && View() == old(View())
      ensures upper > 1 ==> r < upper && r == Draw(old(View()), n) % upper && View() == After(old(View()), n)
    {
      hide Next, Limit;
      r := 0;
      if 1 < upper {
        ghost var k := 1;
        r := Random();
        while r >= Limit(upper)
          invariant 0 < k <= n && View() == After(old(View()), k) && r == Draw(old(View()), k)
          decreases n - k
        {
          r := Random();
          k := k + 1;
        }
        r := r % upper;
      }
    }
  }

  // ----- no bias -----

  lemma LimitIsMultiple(upper: u64)
    requires upper > 1
    ensures Limit(upper) == upper * (RANDOM_MAX / upper) && RANDOM_MAX / upper > 0
  {
    assert RANDOM_MAX == upper * (RANDOM_MAX / upper) + RANDOM_MAX % upper;
  }

  function Accepted(n: nat, upper: nat, k: nat): set<nat>
    requires upper > 0
  {
    set x: nat | x < n && x % upper == k
  }

  lemma NextBlock(n: nat, upper: nat, k: nat)
    requires k < upper
    requires forall x: nat | n <= x < n + upper :: x % upper == k <==> x == n + k
    ensures |Accepted(n + upper, upper, k)| == |Accepted(n, upper, k)| + 1
  {
    assert (n + k) % upper == k;
    assert Accepted(n + upper, upper, k) == Accepted(n, upper, k) + {n + k};
  }

  /** Each residue occurs once in every block of `upper` numbers. */
  lemma {:induction false} EqualShares(m: nat, upper: nat, k: nat)
    requires k < upper
    ensures |Accepted(upper * m, upper, k)| == m
  {
    if m == 0 {
      assert Accepted(upper * m, upper, k) == {};
    } else {
      EqualShares(m - 1, upper, k);
      var n := upper * (m - 1);
      assert upper * m == n + upper;
      ResidueOnce(upper, m - 1, k);
      NextBlock(n, upper, k);
    }
  }

  lemma ResidueOnce(upper: nat, q: nat, k: nat)
    requires k < upper
    ensures forall x: nat | upper * q <= x < upper * q + upper :: x % upper == k <==> x == upper * q + k
  {
    forall x: nat | upper * q <= x < upper * q + upper
      ensures x % upper == k <==> x == upper * q + k
    {
      DivMod(upper, q, x - upper * q);
    }
  }

  lemma SmallMultiple(upper: nat, d: int)
    requires -(upper as int) < upper * d < upper
    ensures d == 0
  {}

  lemma DivMod(upper: nat, q: nat, r: nat)
    requires r < upper
    ensures (upper * q + r) % upper == r
  {
    var x := upper * q + r;
    var d := x / upper - q;
    assert upper * (x / upper) == upper * q + upper * d;
    assert x == upper * (x / upper) + x % upper;
    assert upper * d == r - x % upper;
    SmallMultiple(upper, d);
  }

  /** Every result below `upper` comes from equally many of the numbers that are accepted, and from at
      least one. */
  lemma Unbiased(upper: u64, k: nat)
    requires k < upper && upper > 1
    ensures |Accepted(Limit(upper), upper, k)| == RANDOM_MAX / upper > 0
  {
    LimitIsMultiple(upper);
    EqualShares(RANDOM_MAX / upper, upper, k);
  }

  /** And every number from equally many states: exchanging the last word of the next state maps the states
      that give `x` one to one to those that give `y`. */
  lemma EveryNumberAlike(x: u64, y: u64, s: State)
    requires Next(s).d == x
    ensures var t := Previous(Next(s).(d := y));
            Next(t).d == y && Previous(Next(t).(d := x)) == s
  {
    PreviousNext(s);
    NextPrevious(Next(s).(d := y));
    hide Next, Previous;
  }
}
