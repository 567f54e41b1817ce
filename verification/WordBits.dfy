/** What the masks, XOR and complement on 32-bit words are in arithmetic, by way of the words' bytes. */
module WordBits {

  /** The word is made of the four bytes, the most significant first. */
  predicate OfBytes(x: bv32, a: bv8, b: bv8, c: bv8, d: bv8) {
    x == ((((a as bv16) << 8) | (b as bv16)) as bv32 << 16) | ((((c as bv16) << 8) | (d as bv16)) as bv32)
  }

  lemma ByteOf(x: bv32) returns (a: bv8, b: bv8, c: bv8, d: bv8)
    ensures OfBytes(x, a, b, c, d)
  {
    a, b, c, d := ((x >> 24) & 0xff) as bv8, ((x >> 16) & 0xff) as bv8, ((x >> 8) & 0xff) as bv8, (x & 0xff) as bv8;
  }

  lemma TwoBytes(a: bv8, b: bv8, x: bv16)
    requires x == ((a as bv16) << 8) | (b as bv16)
    ensures x as nat == a as nat * 0x100 + b as nat
  {
  }

  lemma TwoHalves(a: bv16, b: bv16, x: bv32)
    requires x == ((a as bv32) << 16) | (b as bv32)
    ensures x as nat == a as nat * 0x1_0000 + b as nat
  {
  }

  /** A word above another one. */
  function Joined(a: bv32, b: bv32): bv64 {
    ((a as bv64) << 32) | (b as bv64)
  }

  lemma TwoWords(a: bv32, b: bv32)
    ensures Joined(a, b) as nat == a as nat * 0x1_0000_0000 + b as nat
  {
    JoinedIs(a, b, Joined(a, b));
  }

  lemma JoinedIs(a: bv32, b: bv32, x: bv64)
    requires x == ((a as bv64) << 32) | (b as bv64)
    ensures x as nat == a as nat * 0x1_0000_0000 + b as nat
  {
  }

  lemma NumberOf(x: bv32, a: bv8, b: bv8, c: bv8, d: bv8)
    requires OfBytes(x, a, b, c, d)
    ensures x as nat == (a as nat * 0x100 + b as nat) * 0x1_0000 + (c as nat * 0x100 + d as nat)
  {
    var high, low := ((a as bv16) << 8) | (b as bv16), ((c as bv16) << 8) | (d as bv16);
    TwoBytes(a, b, high);
    TwoBytes(c, d, low);
    TwoHalves(high, low, x);
  }

  lemma ComplementBytes(x: bv32, a: bv8, b: bv8, c: bv8, d: bv8)
    requires OfBytes(x, a, b, c, d)
    ensures OfBytes(!x, !a, !b, !c, !d)
  {
  }

  lemma FlipBytes(x: bv32, a: bv8, b: bv8, c: bv8, d: bv8)
    requires OfBytes(x, a, b, c, d)
    ensures OfBytes(x ^ 0x8000_0000, a ^ 0x80, b, c, d)
  {
  }

  lemma SignByte(x: bv32, a: bv8, b: bv8, c: bv8, d: bv8)
    requires OfBytes(x, a, b, c, d)
    ensures (x & 0x8000_0000 == 0) <==> (a & 0x80 == 0)
  {
  }

  lemma ByteComplement(a: bv8)
    ensures (!a) as nat == 255 - a as nat
  {
  }

  lemma ByteSign(a: bv8)
    ensures (a & 0x80 == 0) <==> a as nat < 0x80
  {
  }

  lemma ByteFlip(a: bv8, flipped: bv8)
    requires flipped == a ^ 0x80
    ensures SignMoved(a as nat, flipped as nat, 0x80)
  {
  }

  /** The complement of a word. */
  lemma Complement(x: bv32)
    ensures (!x) as nat == 0xffff_ffff - x as nat
  {
    var a, b, c, d := ByteOf(x);
    ComplementBytes(x, a, b, c, d);
    NumberOf(x, a, b, c, d);
    NumberOf(!x, !a, !b, !c, !d);
    ByteComplement(a);
    ByteComplement(b);
    ByteComplement(c);
    ByteComplement(d);
  }

  /** Testing the sign bit. */
  lemma Sign(x: bv32)
    ensures (x & 0x8000_0000 == 0) <==> x as nat < 0x8000_0000
  {
    var a, b, c, d := ByteOf(x);
    SignByte(x, a, b, c, d);
    NumberOf(x, a, b, c, d);
    ByteSign(a);
  }

  predicate SignMoved(x: nat, y: nat, half: nat) {
    y == if x >= half then x - half else x + half
  }

  lemma TopByteMoved(x: bv32, y: bv32, a: bv8, top: bv8, b: bv8, c: bv8, d: bv8)
    requires OfBytes(x, a, b, c, d) && OfBytes(y, top, b, c, d) && SignMoved(a as nat, top as nat, 0x80)
    ensures SignMoved(x as nat, y as nat, 0x8000_0000)
  {
    NumberOf(x, a, b, c, d);
    NumberOf(y, top, b, c, d);
  }

  /** Flipping the sign bit. */
  lemma Flip(x: bv32, flipped: bv32)
    requires flipped == x ^ 0x8000_0000
    ensures SignMoved(x as nat, flipped as nat, 0x8000_0000)
  {
    var a, b, c, d := ByteOf(x);
    var top := a ^ 0x80;
    FlipBytes(x, a, b, c, d);
    ByteFlip(a, top);
    TopByteMoved(x, flipped, a, top, b, c, d);
  }

  /** Only one word has nothing but the sign bit. */
  lemma ZeroWord(x: bv32, flipped: bv32)
    requires flipped == x ^ 0x8000_0000
    ensures x as nat == 0 <==> x == 0
    ensures x as nat == 0x8000_0000 <==> x == 0x8000_0000
  {
  }
}
