/** The 32-bit FNV-1a hash that stands for the values of a spec in the cache keys. */
module Hashing {
  const RANGE := 0x1_0000_0000

  type Byte = n: int | 0 <= n < 256

  type Word = n: int | 0 <= n < RANGE

  const OFFSET: Word := 2166136261
  const PRIME := 16777619

  /** The inverse of the prime: their product is 1 modulo the range. */
  const INVERSE := 899433627

  /** Exclusive-or, bit by bit. */
  function XorBits(bits: nat, a: nat, b: nat): nat {
    if bits == 0 then 0 else 2 * XorBits(bits - 1, a / 2, b / 2) + (a + b) % 2
  }

  function Power(bits: nat): nat {
    if bits == 0 then 1 else 2 * Power(bits - 1)
  }

  lemma PowerOfByte()
    ensures Power(8) == 256
  {
    assert Power(4) == 16;
  }

  lemma {:induction false} XorBound(bits: nat, a: nat, b: nat)
    ensures XorBits(bits, a, b) < Power(bits)
  {
    if bits > 0 {
      XorBound(bits - 1, a / 2, b / 2);
    }
  }

  /** The bit of weight two to the power of `i`. */
  predicate BitAt(n: nat, i: nat) {
    if i == 0 then n % 2 == 1 else BitAt(n / 2, i - 1)
  }

  lemma XorHalves(bits: nat, a: nat, b: nat)
    requires bits > 0
    ensures XorBits(bits, a, b) / 2 == XorBits(bits - 1, a / 2, b / 2)
    ensures XorBits(bits, a, b) % 2 == 1 <==> a % 2 != b % 2
  {
  }

  /** Each bit of the result is set exactly where one of the two is and the other is not. */
  lemma {:induction false} XorAtBit(bits: nat, a: nat, b: nat, i: nat)
    requires i < bits
    ensures BitAt(XorBits(bits, a, b), i) <==> BitAt(a, i) != BitAt(b, i)
    decreases i
  {
    XorHalves(bits, a, b);
    if i > 0 {
      XorAtBit(bits - 1, a / 2, b / 2, i - 1);
    }
  }

  function Xor(a: Byte, b: Byte): Byte {
    XorBound(8, a, b);
    PowerOfByte();
    XorBits(8, a, b)
  }

  /** Exclusive-or with a byte, which touches the lowest byte only. */
  function Mix(h: Word, b: Byte): Word {
    h / 256 * 256 + Xor(h % 256, b)
  }

  function Absorb(h: Word, b: Byte): Word {
    Mix(h, b) * PRIME % RANGE
  }

  function HashFrom(h: Word, data: seq<Byte>): Word
    decreases |data|
  {
    if data == [] then h else HashFrom(Absorb(h, data[0]), data[1..])
  }

  function Hash(data: seq<Byte>): Word {
    HashFrom(OFFSET, data)
  }

  lemma XorOfTwoBytes(a: Byte, b: Byte)
    requires a == 0xC5 && b == 97
    ensures Xor(a, b) == 0xA4
  {
    assert XorBits(2, 3, 1) == 2;
    assert XorBits(4, 12, 6) == 2 * XorBits(3, 6, 3) == 10;
    assert XorBits(6, 49, 24) == 2 * XorBits(5, 24, 12) + 1 == 41;
    assert XorBits(8, 197, 97) == 2 * XorBits(7, 98, 48) == 164;
  }

  lemma AbsorbsA(h: Word, b: Byte)
    requires h == 0x811C9DC5 && b == 97
    ensures Absorb(h, b) == 0xE40C292C
  {
    XorOfTwoBytes(h % 256, b);
    assert Mix(h, b) == 0x811C9DA4;
  }

  lemma HashOfOne(h: Word, data: seq<Byte>)
    requires |data| == 1
    ensures HashFrom(h, data) == Absorb(h, data[0])
  {
    assert data[1..] == [];
  }

  /** Two published values: the hash of nothing and that of the letter a. */
  lemma KnownHashes(nothing: seq<Byte>, letter: seq<Byte>)
    requires nothing == [] && |letter| == 1 && letter[0] == 97
    ensures Hash(nothing) == 0x811C9DC5 && Hash(letter) == 0xE40C292C
  {
    HashOfOne(OFFSET, letter);
    AbsorbsA(OFFSET, letter[0]);
  }

  lemma {:induction false} HashFromConcat(h: Word, a: seq<Byte>, b: seq<Byte>)
    ensures HashFrom(h, a + b) == HashFrom(HashFrom(h, a), b)
    decreases |a|
  {
    if a == [] {
      assert a + b == b;
    } else {
      HashFromConcat(Absorb(h, a[0]), a[1..], b);
      assert (a + b)[1..] == a[1..] + b;
    }
  }

  method CalculateHash(data: seq<Byte>) returns (h: Word)
    ensures h == Hash(data)
  {
    h := OFFSET;
    for n := 0 to |data|
      invariant h == Hash(data[..n])
    {
      HashFromConcat(OFFSET, data[..n], [data[n]]);
      assert data[..n] + [data[n]] == data[..n + 1];
      h := Absorb(h, data[n]);
      assert HashFrom(Hash(data[..n]), [data[n]]) == HashFrom(h, []);
    }
    assert data[..|data|] == data;
  }

  /** Multiplying by the prime loses nothing, because the prime has an inverse. */
  lemma MultiplyingInjective(x: Word, y: Word)
    requires x * PRIME % RANGE == y * PRIME % RANGE
    ensures x == y
  {
    var q := x * PRIME / RANGE - y * PRIME / RANGE;
    assert (x - y) * PRIME == RANGE * q;
    assert PRIME * INVERSE == RANGE * 3513497 + 1;
    assert x - y == RANGE * (q * INVERSE - 3513497 * (x - y));
  }

  lemma HalfAndBit(x: int, p: int, y: int, q: int)
    requires 2 * x + p == 2 * y + q && 0 <= p < 2 && 0 <= q < 2
    ensures x == y && p == q
  {
  }

  lemma SameParity(a: nat, b: nat, c: nat)
    requires (a + b) % 2 == (a + c) % 2 && b / 2 == c / 2
    ensures b == c
  {
  }

  lemma HighAndLow(x: int, u: int, y: int, v: int)
    requires x * 256 + u == y * 256 + v && 0 <= u < 256 && 0 <= v < 256
    ensures x == y && u == v
  {
  }

  lemma {:induction false} XorInjective(bits: nat, a: nat, b: nat, c: nat)
    requires b < Power(bits) && c < Power(bits)
    requires XorBits(bits, a, b) == XorBits(bits, a, c)
    ensures b == c
  {
    if bits > 0 {
      var x, y := XorBits(bits - 1, a / 2, b / 2), XorBits(bits - 1, a / 2, c / 2);
      HalfAndBit(x, (a + b) % 2, y, (a + c) % 2);
      XorInjective(bits - 1, a / 2, b / 2, c / 2);
      SameParity(a, b, c);
    }
  }

  lemma {:induction false} XorCommutes(bits: nat, a: nat, b: nat)
    ensures XorBits(bits, a, b) == XorBits(bits, b, a)
  {
    if bits > 0 {
      XorCommutes(bits - 1, a / 2, b / 2);
    }
  }

  lemma SameByte(g: Word, h: Word, b: Byte)
    requires Absorb(g, b) == Absorb(h, b)
    ensures g == h
  {
    MultiplyingInjective(Mix(g, b), Mix(h, b));
    HighAndLow(g / 256, Xor(g % 256, b), h / 256, Xor(h % 256, b));
    XorCommutes(8, g % 256, b);
    XorCommutes(8, h % 256, b);
    PowerOfByte();
    XorInjective(8, b, g % 256, h % 256);
  }

  lemma SameState(h: Word, a: Byte, b: Byte)
    requires Absorb(h, a) == Absorb(h, b)
    ensures a == b
  {
    MultiplyingInjective(Mix(h, a), Mix(h, b));
    PowerOfByte();
    XorInjective(8, h % 256, a, b);
  }

  /** Different states stay different whatever is absorbed. */
  lemma {:induction false} StatesStayApart(g: Word, h: Word, data: seq<Byte>)
    requires g != h
    ensures HashFrom(g, data) != HashFrom(h, data)
    decreases |data|
  {
    if data != [] {
      if Absorb(g, data[0]) == Absorb(h, data[0]) {
        SameByte(g, h, data[0]);
        assert false;
      }
      StatesStayApart(Absorb(g, data[0]), Absorb(h, data[0]), data[1..]);
    }
  }

  /** Values that differ in one byte never collide. */
  lemma OneByteNeverCollides(before: seq<Byte>, a: Byte, b: Byte, after: seq<Byte>)
    requires a != b
    ensures Hash(before + [a] + after) != Hash(before + [b] + after)
  {
    var h := HashFrom(OFFSET, before);
    HashFromConcat(OFFSET, before + [a], after);
    HashFromConcat(OFFSET, before, [a]);
    HashFromConcat(OFFSET, before + [b], after);
    HashFromConcat(OFFSET, before, [b]);
    assert HashFrom(h, [a]) == Absorb(h, a) by { assert [a][1..] == []; }
    assert HashFrom(h, [b]) == Absorb(h, b) by { assert [b][1..] == []; }
    if Absorb(h, a) == Absorb(h, b) {
      SameState(h, a, b);
      assert false;
    }
    StatesStayApart(Absorb(h, a), Absorb(h, b), after);
  }
}
