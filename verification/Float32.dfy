/**
 Binary32 values as bit patterns (section 3.4 of IEEE 754-2008), NaN excluded, and the ordered
 integer keys the selector sorts by. `Value` gives a pattern its number independently of the keys,
 so that -0 and +0 are the same value (section 5.11 of IEEE 754-2008) although their bits differ.
 */
module Float32 {
  import opened Extended
  import opened WordBits

  const SIGN_BIT: nat := 0x8000_0000
  const INFINITY_MAGNITUDE: nat := 0x7f80_0000

  /** A 32-bit word as the number it denotes; `KeysFromBits` ties the arithmetic to the bit operations. */
  type Word = n: int | 0 <= n < 0x1_0000_0000

  predicate Negative(bits: Word) {
    bits >= SIGN_BIT
  }

  /** The exponent and fraction fields read as one 31-bit number. */
  function Magnitude(bits: Word): nat {
    if bits >= SIGN_BIT then bits - SIGN_BIT else bits
  }

  predicate IsNaN(bits: Word) {
    Magnitude(bits) > INFINITY_MAGNITUDE
  }

  type Float = bits: Word | !IsNaN(bits)

  const POSITIVE_INFINITY: Float := 0x7f80_0000
  const NEGATIVE_INFINITY: Float := 0xff80_0000

  function Pow2(n: nat): (p: nat)
    ensures p > 0
  {
    if n == 0 then 1 else 2 * Pow2(n - 1)
  }

  /** The absolute value of a finite pattern, counted in units of the least subnormal 2^-149. */
  function Units(magnitude: nat): nat {
    var exponent, fraction := magnitude / 0x80_0000, magnitude % 0x80_0000;
    if exponent == 0 then fraction else (0x80_0000 + fraction) * Pow2(exponent - 1)
  }

  function SignedUnits(f: Float): int {
    if Negative(f) then -(Units(Magnitude(f)) as int) else Units(Magnitude(f))
  }

  /** The number a pattern denotes; 2^149 is written out. */
  function Value(f: Float): Ext {
    if Magnitude(f) == INFINITY_MAGNITUDE then
      if Negative(f) then NegInf else PosInf
    else
      Fin(SignedUnits(f) as real / 713623846352979940529142984724747568191373312.0)
  }

  /** Sign and magnitude read as one signed integer; both zeros are 0. */
  function Rank(f: Float): int {
    if Negative(f) then -(Magnitude(f) as int) else Magnitude(f)
  }

  /** The source's `<` on floats: sign-magnitude comparison. `ValueOrder` shows it compares the numbers denoted. */
  predicate Less(a: Float, b: Float) {
    Rank(a) < Rank(b)
  }

  /** The source's `==` on floats. */
  predicate Equal(a: Float, b: Float) {
    Rank(a) == Rank(b)
  }

  /** A float with minus zero read as plus zero. */
  function Normal(f: Float): Word {
    if Equal(f, 0) then 0 else f
  }

  function KeyOfNormal(n: Word): Word {
    if n >= SIGN_BIT then 0xffff_ffff - n else n + SIGN_BIT
  }

  function OrderedFloatKey(f: Float): Word {
    KeyOfNormal(Normal(f))
  }

  function FloatFromOrderedKey(ordered: Word): Word {
    if ordered >= SIGN_BIT then ordered - SIGN_BIT else 0xffff_ffff - ordered
  }

  /** The 64-bit key, as the number it denotes: the shift and the OR place the key above the ID. */
  function RankKey(f: Float, id: Word): nat {
    OrderedFloatKey(f) * 0x1_0000_0000 + id
  }

  // ---------------------------------------------------------------- the bit operations

  /** Assigning plus zero to a value that compares equal to zero. */
  function PlusZero(bits: bv32): bv32 {
    if bits == 0x8000_0000 then 0 else bits
  }

  /** `ordered_float_key` on the bits, as the source computes it. */
  function OrderedFloatKeyBits(f: bv32): bv32 {
    KeyBits(PlusZero(f))
  }

  function KeyBits(bits: bv32): bv32 {
    if bits & 0x8000_0000 != 0 then !bits else bits ^ 0x8000_0000
  }

  /** `float_from_ordered_key` on the bits. */
  function FloatBitsFromOrderedKey(ordered: bv32): bv32 {
    if ordered & 0x8000_0000 != 0 then ordered ^ 0x8000_0000 else !ordered
  }

  /** `rank_key` on the bits. */
  function RankKeyBits(f: bv32, id: bv32): bv64 {
    Joined(OrderedFloatKeyBits(f), id)
  }

  lemma PlusZeroIs(bits: bv32, f: Float)
    requires bits as nat == f
    ensures PlusZero(bits) as nat == Normal(f)
  {
    ZeroWord(bits, bits ^ 0x8000_0000);
  }

  lemma NegativeKey(bits: bv32, n: Word)
    requires bits as nat == n && n >= SIGN_BIT
    ensures KeyBits(bits) as nat == 0xffff_ffff - n
  {
    Sign(bits);
    Complement(bits);
  }

  lemma PositiveKey(bits: bv32, n: Word)
    requires bits as nat == n && n < SIGN_BIT
    ensures KeyBits(bits) as nat == n + SIGN_BIT
  {
    Sign(bits);
    Flip(bits, bits ^ 0x8000_0000);
  }

  lemma KeyBitsAre(bits: bv32, n: Word)
    requires bits as nat == n
    ensures KeyBits(bits) as nat == KeyOfNormal(n)
  {
    if n >= SIGN_BIT { NegativeKey(bits, n); } else { PositiveKey(bits, n); }
  }

  lemma OrderedBits(bits: bv32, n: Word)
    requires PlusZero(bits) as nat == n
    ensures OrderedFloatKeyBits(bits) as nat == KeyOfNormal(n)
  {
    KeyBitsAre(PlusZero(bits), n);
  }

  lemma KeyFromBits(bits: bv32, f: Float)
    requires bits as nat == f
    ensures OrderedFloatKeyBits(bits) as nat == OrderedFloatKey(f)
  {
    PlusZeroIs(bits, f);
    OrderedBits(bits, Normal(f));
  }

  lemma RankWords(bits: bv32, id: bv32)
    ensures RankKeyBits(bits, id) as nat == OrderedFloatKeyBits(bits) as nat * 0x1_0000_0000 + id as nat
  {
    TwoWords(OrderedFloatKeyBits(bits), id);
  }

  lemma RankFromKey(bits: bv32, f: Float, id: bv32, i: Word)
    requires OrderedFloatKeyBits(bits) as nat == OrderedFloatKey(f) && id as nat == i
    ensures RankKeyBits(bits, id) as nat == RankKey(f, i)
  {
    RankWords(bits, id);
  }

  /** The masks, XOR, complement, shift and OR of the source compute the keys that the proofs speak about. */
  lemma KeysFromBits(bits: bv32, f: Float, id: bv32, i: Word)
    requires bits as nat == f && id as nat == i
    ensures OrderedFloatKeyBits(bits) as nat == OrderedFloatKey(f)
    ensures RankKeyBits(bits, id) as nat == RankKey(f, i)
  {
    KeyFromBits(bits, f);
    RankFromKey(bits, f, id, i);
  }

  lemma FlippedKey(bits: bv32, n: Word)
    requires bits as nat == n && n >= SIGN_BIT
    ensures FloatBitsFromOrderedKey(bits) as nat == n - SIGN_BIT
  {
    Sign(bits);
    Flip(bits, bits ^ 0x8000_0000);
  }

  lemma ComplementedKey(bits: bv32, n: Word)
    requires bits as nat == n && n < SIGN_BIT
    ensures FloatBitsFromOrderedKey(bits) as nat == 0xffff_ffff - n
  {
    Sign(bits);
    Complement(bits);
  }

  lemma FloatBitsAre(bits: bv32, n: Word)
    requires bits as nat == n
    ensures FloatBitsFromOrderedKey(bits) as nat == if n >= SIGN_BIT then n - SIGN_BIT else 0xffff_ffff - n
  {
    if n >= SIGN_BIT { FlippedKey(bits, n); } else { ComplementedKey(bits, n); }
  }

  lemma FloatFromBits(bits: bv32, ordered: Word)
    requires bits as nat == ordered
    ensures FloatBitsFromOrderedKey(bits) as nat == FloatFromOrderedKey(ordered)
  {
    FloatBitsAre(bits, ordered);
  }

  // ---------------------------------------------------------------- the order of magnitudes

  lemma {:induction false} UnitsMonotone(a: nat, b: nat)
    requires a < b
    ensures Units(a) < Units(b)
    decreases b - a
  {
    UnitsStep(b - 1);
    if a < b - 1 {
      UnitsMonotone(a, b - 1);
    }
  }

  /** The next pattern denotes a larger number, also across a change of exponent. */
  lemma UnitsStep(a: nat)
    ensures Units(a) < Units(a + 1)
  {
    var e, f := a / 0x80_0000, a % 0x80_0000;
    if f + 1 < 0x80_0000 {
      assert (a + 1) / 0x80_0000 == e && (a + 1) % 0x80_0000 == f + 1;
      if e > 0 { Scale(0x80_0000 + f, 0x80_0000 + f + 1, Pow2(e - 1)); }
    } else {
      assert (a + 1) / 0x80_0000 == e + 1 && (a + 1) % 0x80_0000 == 0;
      if e > 0 {
        assert Pow2(e) == 2 * Pow2(e - 1);
        Scale(0x80_0000 + f, 0x80_0000 * 2, Pow2(e - 1));
        assert 0x80_0000 * 2 * Pow2(e - 1) == 0x80_0000 * Pow2(e);
      } else {
        assert Pow2(0) == 1;
      }
    }
  }

  lemma Scale(a: nat, b: nat, p: nat)
    requires a < b && p > 0
    ensures a * p < b * p
  {
    assert (b - a) * p > 0;
  }

  lemma UnitsZero(n: nat)
    ensures Units(n) == 0 <==> n == 0
  {
    if n > 0 { UnitsMonotone(0, n); }
  }

  // ---------------------------------------------------------------- the keys

  lemma UnitsQuotient(m: int, n: int)
    ensures var c := 713623846352979940529142984724747568191373312.0;
      (m as real / c < n as real / c <==> m < n) && (m as real / c == n as real / c <==> m == n)
  {
  }

  lemma SignedUnitsOrder(a: Float, b: Float)
    ensures SignedUnits(a) < SignedUnits(b) <==> Rank(a) < Rank(b)
    ensures SignedUnits(a) == SignedUnits(b) <==> Rank(a) == Rank(b)
  {
    var m, n := Magnitude(a), Magnitude(b);
    UnitsZero(m);
    UnitsZero(n);
    if m < n { UnitsMonotone(m, n); }
    if n < m { UnitsMonotone(n, m); }
  }

  lemma FiniteOrder(a: Float, b: Float)
    requires Magnitude(a) != INFINITY_MAGNITUDE && Magnitude(b) != INFINITY_MAGNITUDE
    ensures Value(a).Fin? && Value(b).Fin?
    ensures Value(a).r < Value(b).r <==> SignedUnits(a) < SignedUnits(b)
    ensures Value(a).r == Value(b).r <==> SignedUnits(a) == SignedUnits(b)
  {
    UnitsQuotient(SignedUnits(a), SignedUnits(b));
  }

  /** Float comparison is comparison of the numbers denoted. */
  lemma ValueOrder(a: Float, b: Float)
    ensures Less(a, b) <==> Lt(Value(a), Value(b))
    ensures Equal(a, b) <==> Value(a) == Value(b)
  {
    if Magnitude(a) != INFINITY_MAGNITUDE && Magnitude(b) != INFINITY_MAGNITUDE {
      FiniteOrder(a, b);
      SignedUnitsOrder(a, b);
    } else {
      assert !IsNaN(a) && !IsNaN(b);
    }
  }

  // ---------------------------------------------------------------- the keys

  /** Unsigned comparison of keys is comparison of floats. */
  lemma KeyOrder(a: Float, b: Float)
    ensures Less(a, b) <==> OrderedFloatKey(a) < OrderedFloatKey(b)
    ensures Equal(a, b) <==> OrderedFloatKey(a) == OrderedFloatKey(b)
  {
  }

  /** The key of a float gives the float back; only the sign of a zero is lost. */
  lemma KeyRoundTrip(f: Float)
    ensures FloatFromOrderedKey(OrderedFloatKey(f)) == if Equal(f, 0) then 0 else f
    ensures !IsNaN(FloatFromOrderedKey(OrderedFloatKey(f)))
  {
  }

  /** Keys order (estimate, ID) pairs lexicographically by the number the estimate denotes, then ID. */
  lemma RankKeyOrder(a: Float, i: Word, b: Float, j: Word)
    ensures RankKey(a, i) < RankKey(b, j) <==>
            Lt(Value(a), Value(b)) || (Value(a) == Value(b) && i < j)
  {
    ValueOrder(a, b);
    KeyOrder(a, b);
  }

  // ---------------------------------------------------------------- the numbers denoted

  lemma ValueOfUnits(m: Float)
    requires m < INFINITY_MAGNITUDE
    ensures Value(m) == Fin(Units(m) as real / 713623846352979940529142984724747568191373312.0)
  {
  }

  /** Up to the second binade of normal numbers every pattern is one unit of 2^-149 more than the one before. */
  lemma SmallValues(m: Float)
    requires m <= 0x100_0000
    ensures Value(m) == Fin(m as real / 713623846352979940529142984724747568191373312.0)
  {
    if m >= 0x80_0000 {
      assert Pow2(0) == 1 && Pow2(1) == 2;
    }
  }

  /** One more in the exponent field doubles a normal number. */
  lemma NextBinade(m: Float)
    requires 0x80_0000 <= m < 0x7f00_0000
    ensures Value(m).Fin? && Value(m + 0x80_0000) == Fin(2.0 * Value(m).r)
  {
    assert (m + 0x80_0000) / 0x80_0000 == m / 0x80_0000 + 1 && (m + 0x80_0000) % 0x80_0000 == m % 0x80_0000;
    var e, significand := m / 0x80_0000, 0x80_0000 + m % 0x80_0000;
    assert Pow2(e) == 2 * Pow2(e - 1);
    Doubles(significand, Pow2(e - 1));
    ValueOfUnits(m);
    ValueOfUnits(m + 0x80_0000);
    assert Units(m + 0x80_0000) == 2 * Units(m);
  }

  lemma Doubles(a: nat, b: nat)
    ensures a * (2 * b) == 2 * (a * b)
  {
  }

  /** The sign bit negates. */
  lemma SignNegates(m: Float)
    requires m < INFINITY_MAGNITUDE
    ensures Value(m).Fin? && Value(m + SIGN_BIT) == Fin(-Value(m).r)
  {
    ValueOfUnits(m);
  }

  lemma {:induction false} Pow2Sum(a: nat, b: nat)
    ensures Pow2(a + b) == Pow2(a) * Pow2(b)
  {
    if b > 0 {
      Pow2Sum(a, b - 1);
      Doubles(Pow2(a), Pow2(b - 1));
    }
  }

  lemma Pow2Of126()
    ensures Pow2(126) == 85070591730234615865843651857942052864
  {
    assert Pow2(7) == 128;
    Pow2Sum(7, 7);
    assert Pow2(14) == 16384;
    Pow2Sum(14, 14);
    assert Pow2(28) == 268435456;
    Pow2Sum(28, 28);
    assert Pow2(56) == 72057594037927936;
    Pow2Sum(56, 56);
    assert Pow2(112) == 5192296858534827628530496329220096;
    Pow2Sum(112, 14);
  }

  /** The scale of all this: the pattern of one. */
  lemma ValueOfOne()
    ensures Value(0x3f80_0000) == Fin(1.0)
  {
    ValueOfUnits(0x3f80_0000);
    Pow2Of126();
    assert Units(0x3f80_0000) == 0x80_0000 * Pow2(126);
  }
}
